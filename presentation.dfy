/** The result-presentation rules of main.py's `MainWindow`: how the LaTeX
    text is wrapped for the clipboard, when the two copy buttons are enabled,
    how the model-loading signal switches the upload and screenshot buttons,
    when a captured image is handed to the worker, and where the scaled image
    is drawn on the label. Widgets are reduced to the state the code reads
    and writes; rendering, tooltips and styling are not modelled. */
module Presentation {
  import opened Wrappers
  import opened Text
  import opened JsonData
  import opened Recognition

  const Placeholder := "识别出的 LaTeX 公式将显示在这里"
  const ErrorMarker := "识别失败:"
  const ExportLabels := ["不加包裹", "$$包裹", "\\begin{equation}包裹"]
  const EmptyLabelText := "请上传图片或截图"
  const RecognisingText := "正在识别图像..."
  const ModelNotReadyText := "模型尚未加载，请稍候..."
  const LoadCancelledText := "图片加载失败或取消"

  // ---------------------------------------------------------------------------
  // Export wrapping (`copy_latex_result`)

  /** The text put before and after the formula for each export index. */
  function Opening(index: int): string {
    if index == 1 then "$" else if index == 2 then "\\begin{equation}\n" else ""
  }

  function Closing(index: int): string {
    if index == 1 then "$" else if index == 2 then "\n\\end{equation}" else ""
  }

  /** What `copy_latex_result` puts on the clipboard; `None` when the text is
      empty and nothing is copied. The text is used as it is, not stripped. */
  function FormatForCopy(text: string, index: int): (r: Option<string>)
    ensures r == None <==> text == ""
    ensures r.Some? ==> |r.value| == |Opening(index)| + |text| + |Closing(index)|
    ensures r.Some? ==> r.value[..|Opening(index)|] == Opening(index)
    ensures r.Some? ==> r.value[|r.value| - |Closing(index)|..] == Closing(index)
    ensures r.Some? && index != 1 && index != 2 ==> r.value == text
  {
    if text == "" then None
    else if index == 1 then Some("$" + text + "$")
    else if index == 2 then Some("\\begin{equation}\n" + text + "\n\\end{equation}")
    else Some(text)
  }

  /** Removing the wrapping again. */
  function Unwrap(s: string, index: int): string
    requires |Opening(index)| + |Closing(index)| <= |s|
  {
    s[|Opening(index)|..|s| - |Closing(index)|]
  }

  /** The wrapping loses nothing: unwrapping the copied text gives the
      formula back, for every export index. */
  lemma UnwrapFormat(text: string, index: int)
    requires text != ""
    ensures var r := FormatForCopy(text, index).value;
      |Opening(index)| + |Closing(index)| <= |r| && Unwrap(r, index) == text
  {
    var r := FormatForCopy(text, index).value;
    assert r == Opening(index) + text + Closing(index);
    assert r[|Opening(index)|..|r| - |Closing(index)|] == text;
  }

  /** Index 1 wraps in single dollars (inline maths) although its label
      reads "$$包裹": the copied text never starts with "$$" unless the
      formula itself starts with "$". */
  lemma DollarExportIsInline(text: string)
    requires text != [] && text[0] != '$'
    ensures StartsWith(ExportLabels[1], "$$")
    ensures var r := FormatForCopy(text, 1).value;
      r[0] == '$' && r[|r| - 1] == '$' && !StartsWith(r, "$$")
  {
    var r := FormatForCopy(text, 1).value;
    assert r[1] == text[0];
  }

  // ---------------------------------------------------------------------------
  // Copy buttons and the MathML gate

  /** `update_copy_button_state`: the stripped text is non-empty, differs
      from the stripped placeholder and does not start with "识别失败:". */
  predicate CopyEnabled(text: string, placeholder: string): (enabled: bool)
    ensures enabled ==> !AllSpace(text)
  {
    BlankStripsToEmpty(text);
    var t := Strip(text);
    t != "" && t != Strip(placeholder) && !StartsWith(t, ErrorMarker)
  }

  /** Reports of an exception escaping `process_pixmap` disable copying. */
  lemma ProcessFailureDisablesCopy(message: string, placeholder: string)
    ensures !CopyEnabled(Reported(Raised(message)), placeholder)
  {
    var s := FailurePrefix + message;
    assert s[..5] == ErrorMarker;
    StripKeepsPrefix(s, 4);
    assert Strip(s)[..5] == ErrorMarker;
  }

  /** A text that keeps, after stripping, a character differing from the
      stripped placeholder and one differing from the error marker enables
      copying. */
  lemma CopyEnabledByPrefix(s: string, placeholder: string, m: nat, k: nat, j: nat)
    requires s != [] && !IsSpace(s[0])
    requires m < |s| && !IsSpace(s[m]) && k <= m && j <= m
    requires placeholder != [] && !IsSpace(placeholder[0]) && !IsSpace(placeholder[|placeholder| - 1])
    requires k < |placeholder| && s[k] != placeholder[k]
    requires j < |ErrorMarker| && s[j] != ErrorMarker[j]
    ensures CopyEnabled(s, placeholder)
  {
    StripKeepsPrefix(s, m);
    StripStripped(placeholder);
    var t := Strip(s);
    assert t[k] == s[k];
    assert t[j] == s[j];
  }

  /** The worker's fixed failure texts do not start with the exact marker
      "识别失败:", so they leave both copy buttons enabled. */
  lemma FixedFailureTextsEnableCopy()
    ensures CopyEnabled(NotLoadedMessage, Placeholder)
    ensures CopyEnabled(PreprocessFailedMessage, Placeholder)
    ensures CopyEnabled(ConversionFailedMessage, Placeholder)
  {
    CopyEnabledByPrefix(NotLoadedMessage, Placeholder, 0, 0, 0);
    CopyEnabledByPrefix(PreprocessFailedMessage, Placeholder, 0, 0, 0);
    CopyEnabledByPrefix(ConversionFailedMessage, Placeholder, 0, 0, 0);
  }

  /** Nor does the failure text of `process_image`, whose marker has a space
      before the parenthesis where "识别失败:" has its colon. */
  lemma PathFailureTextEnablesCopy(pathError: string)
    ensures CopyEnabled(PathFailurePrefix + pathError, Placeholder)
  {
    var s := PathFailurePrefix + pathError;
    assert s[..6] == "识别失败 (";
    CopyEnabledByPrefix(s, Placeholder, 5, 2, 4);
  }

  /** The placeholder itself, and blank text, disable copying. */
  lemma PlaceholderDisablesCopy(blank: string)
    requires AllSpace(blank)
    ensures !CopyEnabled(Placeholder, Placeholder)
    ensures !CopyEnabled(blank, Placeholder)
  {
    BlankStripsToEmpty(blank);
  }

  /** Blank text strips to nothing. */
  lemma {:induction false} BlankStripsToEmpty(s: string)
    ensures AllSpace(s) ==> TrimStart(s) == "" && Strip(s) == ""
  {
    if s != [] && AllSpace(s) {
      assert AllSpace(s[1..]) by {
        forall i | 0 <= i < |s[1..]| ensures IsSpace(s[1..][i]) {
          assert s[1..][i] == s[i + 1];
        }
      }
      BlankStripsToEmpty(s[1..]);
    }
  }

  datatype MathmlOutcome = NothingToCopy | Copied(mathml: string) | ConversionFailed(message: string)

  /** `copy_mathml_result`: the converter is called on the stripped text,
      and only under the predicate that enables the buttons. */
  function MathmlCopy(text: string, placeholder: string, convert: string -> Reply): (r: MathmlOutcome)
    ensures r != NothingToCopy <==> CopyEnabled(text, placeholder)
    ensures r.Copied? ==> convert(Strip(text)) == Returned(r.mathml)
    ensures r.ConversionFailed? ==> convert(Strip(text)) == Raised(r.message)
  {
    var t := Strip(text);
    var isPlaceholderOrEmpty := t == "" || t == Strip(placeholder);
    var isErrorMessage := StartsWith(t, ErrorMarker);
    if !isPlaceholderOrEmpty && !isErrorMessage then
      match convert(t)
      case Returned(m) => Copied(m)
      case Raised(e) => ConversionFailed(e)
    else NothingToCopy
  }

  // ---------------------------------------------------------------------------
  // Centring the scaled image (`_scale_and_display_image`)

  /** `(canvas - scaled) // 2`. Python's `//` floors; for the divisor 2 that
      is Dafny's `/`. The image sits centred to within one pixel, and inside
      the canvas whenever it fits. */
  function CentreOffset(canvas: int, scaled: int): (x: int)
    ensures 2 * x <= canvas - scaled <= 2 * x + 1
    ensures scaled <= canvas ==> 0 <= x && x + scaled <= canvas
  {
    (canvas - scaled) / 2
  }

  // ---------------------------------------------------------------------------
  // The window

  datatype ModelStatus = Loading | Loaded(deviceInfo: string) | LoadFailed(errorInfo: string)

  class MainWindow {
    const processor: LocalProcessor
    var status: ModelStatus
    var uploadEnabled: bool
    var screenshotEnabled: bool
    var copyEnabled: bool
    var copyWordEnabled: bool
    var latexText: string
    /** The placeholder text; `display_result_pixmap` sets it again to the
        same text, so it never changes. */
    const placeholder: string
    var exportIndex: int
    var clipboard: string
    var originalPixmap: Option<Pixmap>
    /** Where the scaled image is drawn on the label; `None` when none is. */
    var shownAt: Option<(int, int)>
    var imageText: string
    var currentLatex: Option<string>
    /** Every pixmap sent on `process_request`, oldest first. */
    var requests: seq<Pixmap>

    /** The state `__init__` leaves: loading, with upload, screenshot and
        both copy buttons disabled. */
    constructor (processor: LocalProcessor)
      ensures this.processor == processor
      ensures status == Loading
      ensures !uploadEnabled && !screenshotEnabled && !copyEnabled && !copyWordEnabled
      ensures latexText == "" && placeholder == Placeholder && exportIndex == 0
      ensures originalPixmap == None && shownAt == None && imageText == EmptyLabelText
      ensures currentLatex == None && requests == []
    {
      this.processor := processor;
      status := Loading;
      uploadEnabled, screenshotEnabled := false, false;
      copyEnabled, copyWordEnabled := false, false;
      this.placeholder := Placeholder;
      latexText, exportIndex := "", 0;
      clipboard := "";
      originalPixmap, shownAt, imageText := None, None, EmptyLabelText;
      currentLatex, requests := None, [];
    }

    /** `update_copy_button_state`: both buttons get the same value. */
    method UpdateCopyButtonState()
      modifies this`copyEnabled, this`copyWordEnabled
      ensures copyEnabled == CopyEnabled(latexText, placeholder)
      ensures copyWordEnabled == copyEnabled
    {
      var shouldEnable := CopyEnabled(latexText, placeholder);
      copyEnabled := shouldEnable;
      copyWordEnabled := shouldEnable;
    }

    /** `latexEdit.setText`, whose `textChanged` signal runs
        `update_copy_button_state`. */
    method SetLatexText(text: string)
      modifies this`latexText, this`copyEnabled, this`copyWordEnabled
      ensures latexText == text
      ensures copyEnabled == CopyEnabled(text, placeholder) && copyWordEnabled == copyEnabled
    {
      latexText := text;
      UpdateCopyButtonState();
    }

    /** `on_model_loading_finished`: a text containing "失败" is a failed
        load and keeps upload and screenshot disabled; any other enables
        them. The copy buttons end as the copy rule says. */
    method OnModelLoadingFinished(deviceInfo: string)
      modifies this`status, this`uploadEnabled, this`screenshotEnabled,
               this`copyEnabled, this`copyWordEnabled
      ensures Contains(deviceInfo, FailureMarker) ==> status == LoadFailed(deviceInfo)
      ensures !Contains(deviceInfo, FailureMarker) ==> status == Loaded(deviceInfo)
      ensures uploadEnabled == !Contains(deviceInfo, FailureMarker) && screenshotEnabled == uploadEnabled
      ensures copyEnabled == CopyEnabled(latexText, placeholder) && copyWordEnabled == copyEnabled
    {
      if Contains(deviceInfo, FailureMarker) {
        status := LoadFailed(deviceInfo);
        uploadEnabled := false;
        screenshotEnabled := false;
      } else {
        status := Loaded(deviceInfo);
        uploadEnabled := true;
        screenshotEnabled := true;
        copyEnabled := true;
      }
      UpdateCopyButtonState();
    }

    /** Starting the worker thread: `start_loading` runs and its
        `model_loaded` signal reaches `on_model_loading_finished`. Upload and
        screenshot become usable exactly when both the model and its
        processor were built. */
    method StartWorker(init: InitOutcome)
      requires status == Loading
      modifies this`status, this`uploadEnabled, this`screenshotEnabled,
               this`copyEnabled, this`copyWordEnabled,
               processor`model, processor`visProcessor, processor`modelLoaded
      ensures processor.model == (if init.BuildFailed? then old(processor.model) else Some(init.model))
      ensures processor.visProcessor == (if init.Built? then Some(init.processor) else old(processor.visProcessor))
      ensures uploadEnabled == init.Built? && screenshotEnabled == uploadEnabled
      ensures init.Built? ==> status == Loaded(DeviceName(processor.device))
      ensures !init.Built? ==> status == LoadFailed(LoadFailureMessage(processor.device, init.error))
      ensures processor.modelLoaded == old(processor.modelLoaded) +
        [if init.Built? then DeviceName(processor.device) else LoadFailureMessage(processor.device, init.error)]
      ensures copyEnabled == CopyEnabled(latexText, placeholder) && copyWordEnabled == copyEnabled
    {
      var info := processor.StartLoading(init);
      OnModelLoadingFinished(info);
    }

    /** `_scale_and_display_image`: nothing to show clears the label; a label
        without area leaves everything as it was; otherwise the scaled image
        is drawn at the centring offsets. */
    method ScaleAndDisplayImage(labelWidth: int, labelHeight: int, scaledWidth: int, scaledHeight: int)
      modifies this`shownAt, this`imageText
      ensures originalPixmap.None? || originalPixmap.value.IsNull() ==>
        shownAt == None && imageText == EmptyLabelText
      ensures originalPixmap.Some? && !originalPixmap.value.IsNull() && (labelWidth <= 0 || labelHeight <= 0) ==>
        shownAt == old(shownAt) && imageText == old(imageText)
      ensures originalPixmap.Some? && !originalPixmap.value.IsNull() && labelWidth > 0 && labelHeight > 0 ==>
        shownAt == Some((CentreOffset(labelWidth, scaledWidth), CentreOffset(labelHeight, scaledHeight)))
        && imageText == ""
    {
      if originalPixmap.None? || originalPixmap.value.IsNull() {
        shownAt := None;
        imageText := EmptyLabelText;
        return;
      }
      if labelWidth <= 0 || labelHeight <= 0 {
        return;
      }
      var x := (labelWidth - scaledWidth) / 2;
      var y := (labelHeight - scaledHeight) / 2;
      shownAt := Some((x, y));
      imageText := "";
    }

    /** `display_result_pixmap`: a request goes to the worker only for a
        non-null pixmap while the worker's `model` is set. */
    method DisplayResultPixmap(pixmap: Option<Pixmap>, labelWidth: int, labelHeight: int,
                               scaledWidth: int, scaledHeight: int)
      modifies this`originalPixmap, this`shownAt, this`imageText, this`latexText,
               this`copyEnabled, this`copyWordEnabled, this`requests
      ensures pixmap.Some? && !pixmap.value.IsNull() && processor.model.Some? ==>
        requests == old(requests) + [pixmap.value] && latexText == RecognisingText
      ensures pixmap.Some? && !pixmap.value.IsNull() && processor.model.None? ==>
        requests == old(requests) && latexText == ModelNotReadyText
      ensures pixmap.Some? && !pixmap.value.IsNull() ==> originalPixmap == pixmap
      ensures pixmap.Some? && !pixmap.value.IsNull() && (labelWidth <= 0 || labelHeight <= 0) ==>
        shownAt == old(shownAt) && imageText == old(imageText)
      ensures pixmap.Some? && !pixmap.value.IsNull() && labelWidth > 0 && labelHeight > 0 ==>
        shownAt == Some((CentreOffset(labelWidth, scaledWidth), CentreOffset(labelHeight, scaledHeight)))
        && imageText == ""
      ensures pixmap.None? || pixmap.value.IsNull() ==>
        requests == old(requests) && originalPixmap == None && shownAt == None
        && imageText == EmptyLabelText && latexText == LoadCancelledText
      ensures copyEnabled == CopyEnabled(latexText, placeholder) && copyWordEnabled == copyEnabled
    {
      // The text is set after the image-label updates; the two touch
      // disjoint state, so the order of the source does not matter.
      var text: string;
      if pixmap.Some? && !pixmap.value.IsNull() {
        originalPixmap := pixmap;
        ScaleAndDisplayImage(labelWidth, labelHeight, scaledWidth, scaledHeight);
        if processor.model.Some? {
          text := RecognisingText;
          requests := requests + [pixmap.value];
        } else {
          text := ModelNotReadyText;
        }
      } else {
        text := LoadCancelledText;
        imageText := LoadCancelledText;
        originalPixmap := None;
        shownAt := None;
        imageText := EmptyLabelText;
      }
      SetLatexText(text);
    }

    /** `on_recognition_finished`: the result becomes the text, the copy
        buttons follow the copy rule, and the result is kept as
        `current_latex`. */
    method OnRecognitionFinished(result: string)
      modifies this`latexText, this`copyEnabled, this`copyWordEnabled, this`currentLatex
      ensures latexText == result && currentLatex == Some(result)
      ensures copyEnabled == CopyEnabled(result, placeholder) && copyWordEnabled == copyEnabled
    {
      SetLatexText(result);
      copyEnabled, copyWordEnabled := true, true;
      UpdateCopyButtonState();
      currentLatex := Some(result);
    }

    /** Choosing an entry of the export combo box. */
    method SetExportFormat(index: int)
      requires 0 <= index < |ExportLabels|
      modifies this`exportIndex
      ensures exportIndex == index
    {
      exportIndex := index;
    }

    /** `copy_latex_result`: copies the wrapped text, or nothing when the
        text is empty. */
    method CopyLatexResult() returns (copied: bool)
      modifies this`clipboard
      ensures copied <==> latexText != ""
      ensures copied ==> clipboard == FormatForCopy(latexText, exportIndex).value
      ensures !copied ==> clipboard == old(clipboard)
    {
      var formatted := FormatForCopy(latexText, exportIndex);
      copied := formatted.Some?;
      if copied {
        clipboard := formatted.value;
      }
    }

    /** `copy_mathml_result`. */
    method CopyMathmlResult(convert: string -> Reply) returns (outcome: MathmlOutcome)
      modifies this`clipboard
      ensures outcome == MathmlCopy(latexText, placeholder, convert)
      ensures outcome.Copied? ==> clipboard == outcome.mathml
      ensures !outcome.Copied? ==> clipboard == old(clipboard)
    {
      outcome := MathmlCopy(latexText, placeholder, convert);
      if outcome.Copied? {
        clipboard := outcome.mathml;
      }
    }
  }

  /** A worker whose processor failed to load after the model was built
      still has `model` set, so the window's gate lets an image through and
      the worker answers with its own not-loaded text, which leaves copying
      enabled. */
  method ProcessorFailureScenario(d: Device, m: Model, error: string, p: Pixmap,
                                  conv: Conversions, config: ConfigFile,
                                  local: LocalRecognizer, remote: RemoteCall)
    returns (reply: string)
    requires !p.IsNull()
    ensures reply == NotLoadedMessage
  {
    var worker := new LocalProcessor(d);
    var window := new MainWindow(worker);
    window.StartWorker(ProcessorFailed(m, error));
    assert !window.uploadEnabled;
    window.DisplayResultPixmap(Some(p), 500, 300, 500, 300);
    assert window.requests == [p];
    reply := worker.ProcessPixmap(p, conv, config, local, remote);
    window.OnRecognitionFinished(reply);
    FixedFailureTextsEnableCopy();
    assert window.copyEnabled;
  }
}
