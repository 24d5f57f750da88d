/** The recognition worker of tools/local_processor.py: the brightness-based
    inversion of a captured image, the choice between the local formula model
    and the remote multimodal API, the clean-up of the remote reply, and the
    `LocalProcessor` object whose `model`, `vis_processor` and emitted signals
    change as it loads and serves requests.

    The image-format conversions (QPixmap, cv2 arrays, PIL images), the model
    itself and the HTTP client are not modelled: their outcomes are inputs. */
module Recognition {
  import opened Wrappers
  import opened Text
  import opened JsonData

  type Byte = b: int | 0 <= b < 256

  /** A raster of bytes, row by row (a cv2 array, channels flattened per row). */
  type Raster = seq<seq<Byte>>

  /** A QPixmap: its size and its blue-green-red channel bytes. */
  datatype Pixmap = Pixmap(width: nat, height: nat, bgr: Raster) {
    /** Qt calls a pixmap with no area a null pixmap. */
    predicate IsNull() {
      width == 0 || height == 0
    }
  }

  // ---------------------------------------------------------------------------
  // Brightness rule and inversion (`preprocess_image`)

  function RowSum(row: seq<Byte>): int {
    if row == [] then 0 else row[0] + RowSum(row[1..])
  }

  function RasterSum(g: Raster): int {
    if g == [] then 0 else RowSum(g[0]) + RasterSum(g[1..])
  }

  function RasterCount(g: Raster): nat {
    if g == [] then 0 else |g[0]| + RasterCount(g[1..])
  }

  /** The mean grey level is below 128, stated without division. An empty grid
      is not dark: numpy's mean of no values is NaN, and NaN < 128 is false. */
  predicate IsDark(grey: Raster) {
    RasterSum(grey) < 128 * RasterCount(grey)
  }

  /** A dark image has pixels, and at least one of them is below 128. */
  lemma DarkImageFacts(grey: Raster)
    requires IsDark(grey)
    ensures RasterCount(grey) > 0
    ensures exists i, j :: 0 <= i < |grey| && 0 <= j < |grey[i]| && grey[i][j] < 128
  {
    if forall i, j :: 0 <= i < |grey| && 0 <= j < |grey[i]| ==> grey[i][j] >= 128 {
      RasterSumAtLeast(grey);
      assert false;
    }
    PixelIsCounted(grey);
  }

  /** A grid with a pixel below 128 has a positive pixel count. */
  lemma PixelIsCounted(g: Raster)
    requires exists i, j :: 0 <= i < |g| && 0 <= j < |g[i]| && g[i][j] < 128
    ensures RasterCount(g) > 0
  {
    var i, j :| 0 <= i < |g| && 0 <= j < |g[i]| && g[i][j] < 128;
    RowCounted(g, i);
  }

  lemma {:induction false} RowCounted(g: Raster, i: nat)
    requires i < |g|
    ensures RasterCount(g) >= |g[i]|
  {
    if i > 0 {
      RowCounted(g[1..], i - 1);
    }
  }

  /** A grid with no pixel below 128 sums to at least 128 per pixel. */
  lemma {:induction false} RasterSumAtLeast(g: Raster)
    requires forall i, j :: 0 <= i < |g| && 0 <= j < |g[i]| ==> g[i][j] >= 128
    ensures RasterSum(g) >= 128 * RasterCount(g)
  {
    if g != [] {
      RowSumAtLeast(g[0]);
      RasterSumAtLeast(g[1..]);
    }
  }

  lemma {:induction false} RowSumAtLeast(row: seq<Byte>)
    requires forall j :: 0 <= j < |row| ==> row[j] >= 128
    ensures RowSum(row) >= 128 * |row|
  {
    if row != [] {
      RowSumAtLeast(row[1..]);
    }
  }

  predicate Uniform(g: Raster, v: Byte) {
    forall i, j :: 0 <= i < |g| && 0 <= j < |g[i]| ==> g[i][j] == v
  }

  lemma {:induction false} RowSumUniform(row: seq<Byte>, v: Byte)
    requires forall j :: 0 <= j < |row| ==> row[j] == v
    ensures RowSum(row) == v * |row|
  {
    if row != [] {
      RowSumUniform(row[1..], v);
    }
  }

  lemma {:induction false} RasterSumUniform(g: Raster, v: Byte)
    requires Uniform(g, v)
    ensures RasterSum(g) == v * RasterCount(g)
  {
    if g != [] {
      RowSumUniform(g[0], v);
      RasterSumUniform(g[1..], v);
    }
  }

  /** On an image of one grey level the rule is the plain threshold: it is
      dark exactly when that level is below 128. */
  lemma UniformDarkIffBelow128(grey: Raster, v: Byte)
    requires Uniform(grey, v) && RasterCount(grey) > 0
    ensures IsDark(grey) <==> v < 128
  {
    RasterSumUniform(grey, v);
    var n := RasterCount(grey);
    assert 128 * n - RasterSum(grey) == (128 - v) * n;
    ProductSign(128 - v, n);
  }

  /** The sign of `d * n` for a positive `n` is the sign of `d`. */
  lemma {:induction false} ProductSign(d: int, n: int)
    requires n > 0
    ensures d * n > 0 <==> d > 0
    decreases n
  {
    if n > 1 {
      ProductSign(d, n - 1);
      assert d * n == d * (n - 1) + d;
    }
  }

  /** `cv2.bitwise_not`: every byte v becomes 255 - v. */
  function Invert(img: Raster): (r: Raster)
    ensures |r| == |img|
    ensures forall i :: 0 <= i < |img| ==> |r[i]| == |img[i]|
  {
    seq(|img|, i requires 0 <= i < |img| =>
      seq(|img[i]|, j requires 0 <= j < |img[i]| => 255 - img[i][j] as Byte))
  }

  /** `r` holds the photometric inverse of `img`, byte for byte. */
  predicate InverseOf(r: Raster, img: Raster) {
    && |r| == |img|
    && (forall i :: 0 <= i < |img| ==> |r[i]| == |img[i]|)
    && forall i, j :: 0 <= i < |img| && 0 <= j < |img[i]| ==> r[i][j] == 255 - img[i][j]
  }

  lemma InvertIsInverse(img: Raster)
    ensures InverseOf(Invert(img), img)
  {
  }

  /** Inverting twice gives the original image back. */
  lemma InvertInvolution(img: Raster)
    ensures Invert(Invert(img)) == img
  {
    var r := Invert(Invert(img));
    forall i | 0 <= i < |img| ensures r[i] == img[i] {
      assert |r[i]| == |img[i]|;
    }
  }

  /** What the image conversions around one request produce: whether
      `_pixmap_to_cv2` succeeds, the grey-level grid cv2 derives from the
      array, whether `_cv2_to_pixmap` succeeds on the inverted array, and
      whether `_pixmap_to_pil` succeeds on the preprocessed pixmap. */
  datatype Conversions = Conversions(toArrayOk: bool, grey: Raster, toPixmapOk: bool, toPilOk: bool)

  /** `preprocess_image`: the pixmap, inverted when its mean grey level is
      below 128; `None` when the inverted array cannot be turned back into a
      pixmap. */
  function Preprocess(p: Pixmap, conv: Conversions): (r: Option<Pixmap>)
    ensures !conv.toArrayOk || !IsDark(conv.grey) ==> r == Some(p)
    ensures r == None <==> conv.toArrayOk && IsDark(conv.grey) && !conv.toPixmapOk
    ensures conv.toArrayOk && IsDark(conv.grey) && conv.toPixmapOk ==>
      r.Some? && r.value.width == p.width && r.value.height == p.height && InverseOf(r.value.bgr, p.bgr)
  {
    if !conv.toArrayOk then Some(p)
    else if IsDark(conv.grey) then
      if conv.toPixmapOk then Some(Pixmap(p.width, p.height, Invert(p.bgr))) else None
    else Some(p)
  }

  // ---------------------------------------------------------------------------
  // Recognizers, the remote request and the clean-up of its reply

  /** What a foreign call gives back: a value, or an exception's message. */
  datatype Reply = Returned(text: string) | Raised(message: string)

  /** The loaded formula model and its visual preprocessor; opaque here. */
  datatype Model = Model(checkpoint: string)
  datatype VisProcessor = VisProcessor(name: string)

  /** Running the local model: `vis_processor`, `model.generate`, `pred_str[0]`. */
  type LocalRecognizer = (Model, VisProcessor, Pixmap) -> Reply

  /** The chat-completion request `_process_with_multimodal` sends. Values
      read from the config are passed on as they are. */
  datatype RemoteRequest = RemoteRequest(
    apiKey: Json, baseUrl: Json, modelName: Json, systemPrompt: Json,
    imageUrlPrefix: string, instruction: string, maxTokens: nat, temperature: real)

  /** Sending the request with the PNG/base64 encoding of the image: the
      reply's first choice's message content, or the exception raised. */
  type RemoteCall = (Pixmap, RemoteRequest) -> Reply

  const ImageUrlPrefix := "data:image/png;base64,"
  const Instruction := "请将图中的数学公式转换为精确的单行LaTeX代码，禁止使用多行环境，不要添加任何额外描述。"
  const MaxTokens := 1024
  const Temperature := 0.2

  /** `str(KeyError(key))`. */
  function KeyErrorMessage(key: string): string {
    "'" + key + "'"
  }

  /** The request built from `model_config`; indexing a missing key raises
      KeyError, in the order the source reads the keys. */
  function BuildRequest(mc: map<string, Json>): (r: RequestOutcome)
    ensures r.RequestOk? <==> "api_key" in mc && "api_url" in mc && "model_name" in mc
    ensures r.RequestOk? ==>
      && r.request.apiKey == mc["api_key"] && r.request.baseUrl == mc["api_url"]
      && r.request.modelName == mc["model_name"]
      && r.request.systemPrompt == (if "system_prompt" in mc then mc["system_prompt"] else JStr(""))
      && r.request.imageUrlPrefix == ImageUrlPrefix && r.request.instruction == Instruction
      && r.request.maxTokens == 1024 && r.request.temperature == 0.2
  {
    if "api_key" !in mc then KeyMissing(KeyErrorMessage("api_key"))
    else if "api_url" !in mc then KeyMissing(KeyErrorMessage("api_url"))
    else if "model_name" !in mc then KeyMissing(KeyErrorMessage("model_name"))
    else RequestOk(RemoteRequest(mc["api_key"], mc["api_url"], mc["model_name"],
                             Get(mc, "system_prompt", JStr("")),
                             ImageUrlPrefix, Instruction, MaxTokens, Temperature))
  }

  datatype RequestOutcome = RequestOk(request: RemoteRequest) | KeyMissing(message: string)

  const BeginAlign := "\\begin{align}"
  const EndAlign := "\\end{align}"
  const BeginAligned := "\\begin{aligned}"
  const EndAligned := "\\end{aligned}"

  predicate HasWrapperToken(s: string) {
    Contains(s, BeginAlign) || Contains(s, EndAlign) || Contains(s, BeginAligned) || Contains(s, EndAligned)
  }

  /** The four `replace(token, "")` calls, in the source's order. */
  function RemoveWrapperTokens(content: string): (r: string)
    ensures |r| <= |content|
    ensures !HasWrapperToken(content) ==> r == content
  {
    RemoveAll(RemoveAll(RemoveAll(RemoveAll(content, BeginAlign), EndAlign), BeginAligned), EndAligned)
  }

  /** The post-processing of the remote reply: the wrapper tokens are removed,
      then `" ".join(latex.split())` merges the whitespace. The result is one
      line with single spaces, and its words are exactly the words of the
      reply once the tokens are gone, so no character but whitespace is lost
      and the order is kept. */
  function CleanLatex(content: string): (r: string)
    ensures SingleSpaced(r)
    ensures SplitWords(r) == SplitWords(RemoveWrapperTokens(content))
    ensures NonSpaceChars(r) == NonSpaceChars(RemoveWrapperTokens(content))
  {
    var stripped := RemoveWrapperTokens(content);
    var words := SplitWords(stripped);
    JoinWordsSingleSpaced(words);
    SplitJoinWords(words);
    SplitWordsKeepsNonSpace(JoinWords(words));
    SplitWordsKeepsNonSpace(stripped);
    JoinWords(words)
  }

  /** Already-clean LaTeX goes through the clean-up unchanged. */
  lemma CleanLatexKeepsCleanInput(content: string)
    requires !HasWrapperToken(content) && SingleSpaced(content)
    ensures CleanLatex(content) == content
  {
    JoinSplitSingleSpaced(content);
  }

  /** A formula in an `align` environment is cleaned as the bare formula
      would be, whatever commands, row breaks and line breaks it holds, as
      long as it carries no wrapper token of its own. */
  lemma CleanLatexUnwrapsAlign(body: string)
    requires !HasWrapperToken(body)
    ensures CleanLatex(BeginAlign + body + EndAlign) == CleanLatex(body)
    ensures SingleSpaced(body) ==> CleanLatex(BeginAlign + body + EndAlign) == body
  {
    RemoveBeginAlign(body);
    RemoveEndAlign(body);
    assert RemoveWrapperTokens(BeginAlign + body + EndAlign) == body;
    if SingleSpaced(body) {
      CleanLatexKeepsCleanInput(body);
    }
  }

  /** The same for an `aligned` environment. */
  lemma CleanLatexUnwrapsAligned(body: string)
    requires !HasWrapperToken(body)
    ensures CleanLatex(BeginAligned + body + EndAligned) == CleanLatex(body)
  {
    var s := BeginAligned + body + EndAligned;
    AlignedTokens();
    AlignTokensAbsent(body, BeginAlign);
    AlignTokensAbsent(body, EndAlign);
    assert RemoveAll(RemoveAll(s, BeginAlign), EndAlign) == s;
    RemoveLeadingToken(BeginAligned, body, EndAligned);
    RemoveTrailingToken(body, EndAligned);
    assert RemoveWrapperTokens(s) == body;
  }

  /** The facts about the two `aligned` tokens the removals rely on: neither
      `align` token occurs in them. */
  lemma AlignedTokens()
    ensures BackslashOnlyFirst(BeginAligned) && BackslashOnlyFirst(EndAligned)
    ensures |EndAligned| < |BeginAligned|
    ensures BeginAligned[..|BeginAlign|] != BeginAlign && BeginAligned[..|EndAlign|] != EndAlign
    ensures !StartsWith(EndAligned, BeginAlign) && !StartsWith(EndAligned, EndAlign)
  {
    assert BeginAligned[1] != EndAlign[1];
    assert BeginAligned[12] != BeginAlign[12];
    assert EndAligned[1] != BeginAlign[1];
    assert EndAligned[10] != EndAlign[10];
  }

  /** An `align` token `t` does not occur in `\begin{aligned}` + body +
      `\end{aligned}` when the body is free of it. */
  lemma AlignTokensAbsent(body: string, t: string)
    requires t == BeginAlign || t == EndAlign
    requires !Contains(body, t)
    ensures !Contains(BeginAligned + body + EndAligned, t)
  {
    AlignTokens();
    AlignedTokens();
    TokenAbsentBetween(BeginAligned, body, EndAligned, t);
  }

  /** A token `t` is absent from `a + body + u` when `a` and `u` have a
      single, leading backslash and neither begins with `t`, and `body` is
      free of `t`. */
  lemma TokenAbsentBetween(a: string, body: string, u: string, t: string)
    requires BackslashOnlyFirst(a) && BackslashOnlyFirst(u) && BackslashOnlyFirst(t)
    requires |t| <= |a| && a[..|t|] != t && !StartsWith(u, t)
    requires !Contains(body, t)
    ensures !Contains(a + body + u, t)
  {
    AbsentBeforeToken(body, u, t);
    AbsentAfterToken(a, body + u, t);
    ConcatAssoc(a, body, u);
  }

  lemma ConcatAssoc(a: string, b: string, c: string)
    ensures a + b + c == a + (b + c)
  {
  }

  /** `t` is absent from `body + u` when `u` has a single, leading backslash
      and does not begin with `t`, and `body` is free of `t`. */
  lemma AbsentBeforeToken(body: string, u: string, t: string)
    requires BackslashOnlyFirst(u) && BackslashOnlyFirst(t)
    requires !StartsWith(u, t) && !Contains(body, t)
    ensures !Contains(body + u, t)
  {
    NotContainsToken(u, t);
    NoOccurrenceBeforeToken(body, u, t);
    NotContainsConcat(body, u, t);
  }

  /** `t` is absent from `a + v` when `a` has a single, leading backslash and
      does not begin with `t`, and `v` is free of `t`. */
  lemma AbsentAfterToken(a: string, v: string, t: string)
    requires BackslashOnlyFirst(a) && t != [] && t[0] == '\\'
    requires |t| <= |a| && a[..|t|] != t && !Contains(v, t)
    ensures !Contains(a + v, t)
  {
    NoMatchInToken(a, v, t);
    NotContainsConcat(a, v, t);
  }

  /** The first removal takes off the opening `\begin{align}` only. */
  lemma RemoveBeginAlign(body: string)
    requires !Contains(body, BeginAlign)
    ensures RemoveAll(BeginAlign + body + EndAlign, BeginAlign) == body + EndAlign
  {
    AlignTokens();
    RemoveLeadingToken(BeginAlign, body, EndAlign);
  }

  /** The second removal takes off the closing `\end{align}` only. */
  lemma RemoveEndAlign(body: string)
    requires !Contains(body, EndAlign)
    ensures RemoveAll(body + EndAlign, EndAlign) == body
  {
    AlignTokens();
    RemoveTrailingToken(body, EndAlign);
  }

  /** The facts about the two `align` tokens the removals rely on. */
  lemma AlignTokens()
    ensures BackslashOnlyFirst(BeginAlign) && BackslashOnlyFirst(EndAlign)
    ensures |EndAlign| < |BeginAlign|
  {
  }

  /** Removing `t` from `t + body + u` takes off the leading `t` only, when
      `u` is shorter than `t` and starts with its only backslash. */
  lemma RemoveLeadingToken(t: string, body: string, u: string)
    requires BackslashOnlyFirst(t) && u != [] && u[0] == '\\' && |u| < |t|
    requires !Contains(body, t)
    ensures RemoveAll(t + body + u, t) == body + u
  {
    ConcatAssoc(t, body, u);
    RemoveAllAtToken(t, body + u);
    NoOccurrenceBeforeToken(body, u, t);
    RemoveAllSkip(body, u, t);
    assert RemoveAll(u, t) == u;
  }

  /** `replace` drops an occurrence at the start and goes on after it. */
  lemma RemoveAllAtToken(t: string, v: string)
    requires t != []
    ensures RemoveAll(t + v, t) == RemoveAll(v, t)
  {
    assert (t + v)[..|t|] == t && (t + v)[|t|..] == v;
  }

  /** Removing `t` from `body + t` leaves `body`. */
  lemma RemoveTrailingToken(body: string, t: string)
    requires BackslashOnlyFirst(t) && !Contains(body, t)
    ensures RemoveAll(body + t, t) == body
  {
    NoOccurrenceBeforeToken(body, t, t);
    RemoveAllSkip(body, t, t);
    assert t[..|t|] == t && t[|t|..] == [];
    assert RemoveAll(t, t) == RemoveAll([], t) == [];
    assert body + [] == body;
  }

  /** A string whose only backslash is its first character contains a
      token starting with a backslash only as a prefix. */
  lemma NotContainsToken(s: string, t: string)
    requires BackslashOnlyFirst(s) && t != [] && t[0] == '\\'
    requires !StartsWith(s, t)
    ensures !Contains(s, t)
  {
    assert '\\' !in s[1..] by {
      forall k | 0 <= k < |s[1..]| ensures s[1..][k] != '\\' {
        assert s[1..][k] == s[k + 1];
      }
    }
    NotContainsFirstChar(s[1..], t);
  }

  /** Where an occurrence of `t` in `s` starts. */
  lemma {:induction false} ContainsIndex(s: string, t: string) returns (i: nat)
    requires Contains(s, t)
    ensures MatchAt(s, t, i)
    decreases |s|
  {
    if StartsWith(s, t) {
      i := 0;
      assert s[..|t|] == s[0..0 + |t|];
    } else {
      var j := ContainsIndex(s[1..], t);
      i := j + 1;
      assert s[1..][j..j + |t|] == s[i..i + |t|];
    }
  }

  /** `t` is not in `w + u` when no occurrence starts inside `w` and `u` is
      free of it. */
  lemma NotContainsConcat(w: string, u: string, t: string)
    requires forall i: nat :: i < |w| ==> !MatchAt(w + u, t, i)
    requires !Contains(u, t)
    ensures !Contains(w + u, t)
  {
    if Contains(w + u, t) {
      var i := ContainsIndex(w + u, t);
      if i >= |w| {
        MatchAtSuffix(w, u, t, i);
        ContainsAt(u, t, i - |w|);
      }
    }
  }

  /** An occurrence in `w + u` past `w` is one in `u`. */
  lemma MatchAtSuffix(w: string, u: string, t: string, i: nat)
    requires |w| <= i && MatchAt(w + u, t, i)
    ensures MatchAt(u, t, i - |w|)
  {
    assert (w + u)[i..i + |t|] == u[i - |w|..i - |w| + |t|];
  }

  /** A token `t` starting with a backslash can start inside a string `a`
      whose only backslash is its first character only at position 0, and
      there it does not when `a` does not begin with it. */
  lemma NoMatchInToken(a: string, b: string, t: string)
    requires BackslashOnlyFirst(a) && t != [] && t[0] == '\\'
    requires |t| <= |a| && a[..|t|] != t
    ensures forall i: nat :: i < |a| ==> !MatchAt(a + b, t, i)
  {
    forall i: nat | i < |a| ensures !MatchAt(a + b, t, i) {
      if i == 0 {
        assert (a + b)[0..|t|] == a[..|t|];
      } else if i + |t| <= |a + b| {
        assert (a + b)[i..i + |t|][0] == a[i];
      }
    }
  }

  /** A token whose only backslash is its first character. */
  predicate BackslashOnlyFirst(t: string) {
    t != [] && t[0] == '\\' && forall k :: 0 < k < |t| ==> t[k] != '\\'
  }

  /** An occurrence of `t` in `s` starts at position `i`. */
  predicate MatchAt(s: string, t: string, i: nat) {
    i + |t| <= |s| && s[i..i + |t|] == t
  }

  /** Where no occurrence starts, `replace` keeps the first character. */
  lemma RemoveAllKeepsHead(s: string, t: string)
    requires t != [] && |t| <= |s| && !MatchAt(s, t, 0)
    ensures RemoveAll(s, t) == [s[0]] + RemoveAll(s[1..], t)
  {
    assert s[..|t|] == s[0..0 + |t|];
  }

  /** An occurrence in the tail of `w + u` is one in `w + u`, one further on. */
  lemma MatchAtTail(w: string, u: string, t: string, i: nat)
    requires w != [] && MatchAt(w[1..] + u, t, i)
    ensures MatchAt(w + u, t, i + 1)
  {
    assert (w[1..] + u)[i..i + |t|] == (w + u)[i + 1..i + 1 + |t|];
  }

  /** No occurrence starting inside `w` means none starting inside `w[1..]`
      once the first character is dropped. */
  lemma NoMatchInTail(w: string, u: string, t: string)
    requires w != []
    requires forall i: nat :: i < |w| ==> !MatchAt(w + u, t, i)
    ensures forall i: nat :: i < |w[1..]| ==> !MatchAt(w[1..] + u, t, i)
  {
    forall i: nat | i < |w[1..]| ensures !MatchAt(w[1..] + u, t, i) {
      if MatchAt(w[1..] + u, t, i) {
        MatchAtTail(w, u, t, i);
      }
    }
  }

  /** When no occurrence of `t` starts inside `w`, removing `t` from `w + u`
      leaves `w` as it is and works on `u` alone. */
  lemma {:induction false} RemoveAllSkip(w: string, u: string, t: string)
    requires t != []
    requires forall i: nat :: i < |w| ==> !MatchAt(w + u, t, i)
    ensures RemoveAll(w + u, t) == w + RemoveAll(u, t)
    decreases |w|
  {
    if w == [] {
      assert w + u == u;
    } else if |w + u| < |t| {
      assert RemoveAll(w + u, t) == w + u;
      assert RemoveAll(u, t) == u;
    } else {
      var s, w' := w + u, w[1..];
      RemoveAllKeepsHead(s, t);
      assert s[1..] == w' + u;
      NoMatchInTail(w, u, t);
      RemoveAllSkip(w', u, t);
      calc {
        RemoveAll(s, t);
        [w[0]] + RemoveAll(w' + u, t);
        [w[0]] + (w' + RemoveAll(u, t));
        ([w[0]] + w') + RemoveAll(u, t);
        { assert [w[0]] + w' == w; }
        w + RemoveAll(u, t);
      }
    }
  }

  /** A token with a single, leading backslash cannot start inside `w` when
      `w` does not contain it and what follows `w` starts with a backslash. */
  lemma NoMatchInside(w: string, u: string, t: string, i: nat)
    requires BackslashOnlyFirst(t) && u != [] && u[0] == '\\' && !Contains(w, t)
    requires i < |w|
    ensures !MatchAt(w + u, t, i)
  {
    var s := w + u;
    if i + |t| <= |w| {
      assert s[i..i + |t|] == w[i..i + |t|];
      if w[i..i + |t|] == t {
        ContainsAt(w, t, i);
      }
    } else if i + |t| <= |s| {
      var k := |w| - i;
      assert s[i..i + |t|][k] == u[0];
      assert t[k] != '\\';
    }
  }

  lemma NoOccurrenceBeforeToken(w: string, u: string, t: string)
    requires BackslashOnlyFirst(t) && u != [] && u[0] == '\\' && !Contains(w, t)
    ensures forall i: nat :: i < |w| ==> !MatchAt(w + u, t, i)
  {
    forall i: nat | i < |w| ensures !MatchAt(w + u, t, i) {
      NoMatchInside(w, u, t, i);
    }
  }

  // ---------------------------------------------------------------------------
  // Backend choice and the fallback to the local model

  datatype Backend = Local | Remote

  /** The backend `process_pixmap` tries first: the remote one exactly when
      the file parses to a dict whose `model_config` is a dict with a truthy
      `enabled`. */
  function SelectBackend(config: ConfigFile): (b: Backend)
    ensures b == Remote <==>
      && config.Parsed? && config.doc.JObj?
      && Get(config.doc.fields, "model_config", JObj(map[])).JObj?
      && Truthy(Get(Get(config.doc.fields, "model_config", JObj(map[])).fields, "enabled", JBool(false)))
  {
    match config
    case Unreadable(_) => Local
    case Parsed(doc) =>
      if !doc.JObj? then Local
      else
        var mc := Get(doc.fields, "model_config", JObj(map[]));
        if mc.JObj? && Truthy(Get(mc.fields, "enabled", JBool(false))) then Remote else Local
  }

  /** The inner `try` block of `process_pixmap` (config read and dispatch):
      its result, or the exception that leaves it. */
  function TryDispatch(m: Model, v: VisProcessor, img: Pixmap, config: ConfigFile,
                       local: LocalRecognizer, remote: RemoteCall): (r: Reply)
    ensures SelectBackend(config) == Local ==> r == local(m, v, img) || r.Raised?
    ensures SelectBackend(config) == Remote && r.Returned? ==> SingleSpaced(r.text)
  {
    match config
    case Unreadable(msg) => Raised(msg)
    case Parsed(doc) =>
      if !doc.JObj? then Raised(NoGetMessage(doc))
      else
        var mc := Get(doc.fields, "model_config", JObj(map[]));
        if !mc.JObj? then Raised(NoGetMessage(mc))
        else if Truthy(Get(mc.fields, "enabled", JBool(false))) then
          match BuildRequest(mc.fields)
          case KeyMissing(msg) => Raised(msg)
          case RequestOk(req) =>
            match remote(img, req)
            case Returned(content) => Returned(CleanLatex(content))
            case Raised(msg) => Raised(msg)
        else local(m, v, img)
  }

  /** The inner `try` with its `except`: any exception from the config read
      or from either backend leads to one more run of the local model. */
  function Dispatch(m: Model, v: VisProcessor, img: Pixmap, config: ConfigFile,
                    local: LocalRecognizer, remote: RemoteCall): (r: Reply)
    ensures r == local(m, v, img) || (r.Returned? && SingleSpaced(r.text))
    ensures r.Raised? ==> r == local(m, v, img)
  {
    var inner := TryDispatch(m, v, img, config, local, remote);
    if inner.Returned? then inner else local(m, v, img)
  }

  /** With the local backend selected, the outcome is the local model's,
      whatever it is. */
  lemma LocalBackendOutcome(m: Model, v: VisProcessor, img: Pixmap, config: ConfigFile,
                            local: LocalRecognizer, remote: RemoteCall)
    requires SelectBackend(config) == Local
    ensures Dispatch(m, v, img, config, local, remote) == local(m, v, img)
  {
  }

  /** With the remote backend selected and a reply received, the outcome is
      the cleaned reply. */
  lemma RemoteBackendOutcome(m: Model, v: VisProcessor, img: Pixmap, config: ConfigFile,
                             local: LocalRecognizer, remote: RemoteCall)
    requires SelectBackend(config) == Remote
    requires BuildRequest(config.doc.fields["model_config"].fields).RequestOk?
    requires remote(img, BuildRequest(config.doc.fields["model_config"].fields).request).Returned?
    ensures Dispatch(m, v, img, config, local, remote) ==
      Returned(CleanLatex(remote(img, BuildRequest(config.doc.fields["model_config"].fields).request).text))
  {
  }

  /** A failing remote call is never reported: the local model answers. */
  lemma RemoteFailureFallsBackToLocal(m: Model, v: VisProcessor, img: Pixmap, config: ConfigFile,
                                      local: LocalRecognizer, remote: RemoteCall)
    requires SelectBackend(config) == Remote
    requires var mc := config.doc.fields["model_config"].fields;
      BuildRequest(mc).KeyMissing? || remote(img, BuildRequest(mc).request).Raised?
    ensures Dispatch(m, v, img, config, local, remote) == local(m, v, img)
  {
  }

  // ---------------------------------------------------------------------------
  // The worker object

  datatype Device = Cuda | Cpu

  /** `str(torch.device(...))`. */
  function DeviceName(d: Device): string {
    match d
    case Cuda => "cuda"
    case Cpu => "cpu"
  }

  /** How `init_model` ends: the model build raises; the model is assigned
      and then `load_processor` raises; or both are assigned. */
  datatype InitOutcome =
    | BuildFailed(error: string)
    | ProcessorFailed(model: Model, error: string)
    | Built(model: Model, processor: VisProcessor)

  const FailureMarker := "失败"
  const NotLoadedMessage := "模型未加载，无法处理图像"
  const PreprocessFailedMessage := "图像预处理失败"
  const ConversionFailedMessage := "图像转换失败"
  const FailurePrefix := "识别失败: "
  const PathNotLoadedMessage := "识别失败: 模型尚未加载完成"
  const PathFailurePrefix := "识别失败 (路径): "

  /** The `model_loaded` text of a failed load. */
  function LoadFailureMessage(d: Device, error: string): (msg: string)
    ensures Contains(msg, FailureMarker)
  {
    var msg := "加载失败 (" + DeviceName(d) + "): " + error;
    assert msg[2..4] == FailureMarker;
    ContainsAt(msg, FailureMarker, 2);
    msg
  }

  /** A device description never carries the failure marker, so the text
      `model_loaded` carries tells success from failure. */
  lemma DeviceNameIsNotFailure(d: Device)
    ensures !Contains(DeviceName(d), FailureMarker)
  {
    NotContainsFirstChar(DeviceName(d), FailureMarker);
  }

  /** What `process_pixmap` emits for the outcome of the dispatch block:
      the result, or the outer handler's message. */
  function Reported(r: Reply): (s: string)
    ensures r.Returned? ==> s == r.text
    ensures r.Raised? ==> StartsWith(s, FailurePrefix) && s[|FailurePrefix|..] == r.message
  {
    match r
    case Returned(s) => s
    case Raised(msg) => FailurePrefix + msg
  }

  /** An image file opened by `process_image`: the pixmap, or the exception. */
  datatype ImageFile = Opened(image: Pixmap) | OpenFailed(message: string)

  class LocalProcessor {
    const device: Device
    var model: Option<Model>
    var visProcessor: Option<VisProcessor>
    /** Every text emitted on `finished`, oldest first. */
    var finished: seq<string>
    /** Every text emitted on `model_loaded`, oldest first. */
    var modelLoaded: seq<string>

    /** Construction does not load the model. */
    constructor (device: Device)
      ensures this.device == device
      ensures model == None && visProcessor == None
      ensures finished == [] && modelLoaded == []
    {
      this.device := device;
      model, visProcessor := None, None;
      finished, modelLoaded := [], [];
    }

    predicate Ready()
      reads this
    {
      model.Some? && visProcessor.Some?
    }

    /** `start_loading`: runs `init_model` and emits `model_loaded` once,
        with the device name on success and a failure text otherwise. */
    method StartLoading(init: InitOutcome) returns (emitted: string)
      modifies this`model, this`visProcessor, this`modelLoaded
      ensures modelLoaded == old(modelLoaded) + [emitted]
      ensures init.Built? ==> emitted == DeviceName(device)
      ensures !init.Built? ==> emitted == LoadFailureMessage(device, init.error)
      ensures model == (if init.BuildFailed? then old(model) else Some(init.model))
      ensures visProcessor == (if init.Built? then Some(init.processor) else old(visProcessor))
      ensures Contains(emitted, FailureMarker) <==> !init.Built?
    {
      match init {
        case BuildFailed(error) =>
          emitted := LoadFailureMessage(device, error);
        case ProcessorFailed(m, error) =>
          model := Some(m);
          emitted := LoadFailureMessage(device, error);
        case Built(m, v) =>
          model := Some(m);
          visProcessor := Some(v);
          DeviceNameIsNotFailure(device);
          emitted := DeviceName(device);
      }
      modelLoaded := modelLoaded + [emitted];
    }

    /** `process_pixmap`: three guards in order (model not loaded,
        preprocessing failed, conversion failed), then the dispatch; exactly
        one `finished` emission on every path. */
    method ProcessPixmap(p: Pixmap, conv: Conversions, config: ConfigFile,
                         local: LocalRecognizer, remote: RemoteCall) returns (emitted: string)
      modifies this`finished
      ensures finished == old(finished) + [emitted]
      ensures !Ready() ==> emitted == NotLoadedMessage
      ensures Ready() && Preprocess(p, conv).None? ==> emitted == PreprocessFailedMessage
      ensures Ready() && Preprocess(p, conv).Some? && !conv.toPilOk ==> emitted == ConversionFailedMessage
      ensures Ready() && Preprocess(p, conv).Some? && conv.toPilOk ==>
        emitted == Reported(Dispatch(model.value, visProcessor.value, Preprocess(p, conv).value, config, local, remote))
    {
      if model.None? || visProcessor.None? {
        emitted := NotLoadedMessage;
        finished := finished + [emitted];
        return;
      }
      var processed := Preprocess(p, conv);
      if processed.None? {
        emitted := PreprocessFailedMessage;
        finished := finished + [emitted];
        return;
      }
      if !conv.toPilOk {
        emitted := ConversionFailedMessage;
        finished := finished + [emitted];
        return;
      }
      var m, v, img := model.value, visProcessor.value, processed.value;
      var result := TryDispatch(m, v, img, config, local, remote);
      if result.Raised? {
        result := local(m, v, img);
      }
      emitted := Reported(result);
      finished := finished + [emitted];
    }

    /** `process_image`: the model guard, then the local model on the opened
        file; any exception is reported with the path-specific prefix. */
    method ProcessImage(file: ImageFile, local: LocalRecognizer) returns (emitted: string)
      modifies this`finished
      ensures finished == old(finished) + [emitted]
      ensures !Ready() ==> emitted == PathNotLoadedMessage
      ensures Ready() && file.OpenFailed? ==> emitted == PathFailurePrefix + file.message
      ensures Ready() && file.Opened? ==>
        var r := local(model.value, visProcessor.value, file.image);
        emitted == if r.Returned? then r.text else PathFailurePrefix + r.message
    {
      if model.None? || visProcessor.None? {
        emitted := PathNotLoadedMessage;
      } else {
        match file {
          case OpenFailed(msg) =>
            emitted := PathFailurePrefix + msg;
          case Opened(img) =>
            var r := local(model.value, visProcessor.value, img);
            emitted := if r.Returned? then r.text else PathFailurePrefix + r.message;
        }
      }
      finished := finished + [emitted];
    }
  }
}
