/** The release check of tools/about_dialog.py: `UpdateCheckerThread.run`
    turns the current version and the latest release tag into lists of
    integers and compares them as Python compares lists; `AboutDialog`
    disables its button while the check runs and shows one notice for the
    signal the thread emits. The HTTP request is a parameter: either the
    release's `tag_name` or the text of the exception that stopped it. */
module UpdateCheck {
  import opened Text
  import opened Notices

  /** A value, or the text of the Python exception that replaced it. */
  datatype Result<T> = Ok(value: T) | Err(message: string)

  /** `str(e)` for the `ValueError` of `int('')`. */
  const InvalidIntMessage := "invalid literal for int() with base 10: ''"
  const CheckText := "检查更新"
  const CheckingText := "正在检查..."

  // ---------------------------------------------------------------------------
  // Parsing a version

  predicate IsDigit(c: char) {
    '0' <= c <= '9'
  }

  predicate AllDigits(s: string) {
    forall i :: 0 <= i < |s| ==> IsDigit(s[i])
  }

  /** `re.sub(r'\D', '', x)`: the digits of `x`, in order. */
  function KeepDigits(s: string): (r: string)
    ensures AllDigits(r) && |r| <= |s|
    ensures AllDigits(s) ==> r == s
    ensures r == [] <==> forall i :: 0 <= i < |s| ==> !IsDigit(s[i])
  {
    if s == [] then []
    else (if IsDigit(s[0]) then [s[0]] else []) + KeepDigits(s[1..])
  }

  /** One character is kept exactly when it is a digit. With
      `KeepDigitsAppend` this fixes `KeepDigits` on every string. */
  lemma KeepDigitsSingle(c: char)
    ensures KeepDigits([c]) == if IsDigit(c) then [c] else []
  {
    assert [c][1..] == [];
  }

  /** Deleting non-digits distributes over concatenation: the digits of a
      part are found wherever its non-digits sit. */
  lemma {:induction false} KeepDigitsAppend(a: string, b: string)
    ensures KeepDigits(a + b) == KeepDigits(a) + KeepDigits(b)
  {
    if a == [] {
      assert a + b == b;
    } else {
      var head := if IsDigit(a[0]) then [a[0]] else [];
      assert (a + b)[0] == a[0];
      assert (a + b)[1..] == a[1..] + b;
      assert KeepDigits(a + b) == head + KeepDigits(a[1..] + b);
      assert KeepDigits(a) == head + KeepDigits(a[1..]);
      KeepDigitsAppend(a[1..], b);
    }
  }

  function DigitValue(c: char): nat
    requires IsDigit(c)
  {
    c as int - '0' as int
  }

  function DigitChar(d: nat): (c: char)
    requires d < 10
    ensures IsDigit(c) && DigitValue(c) == d
  {
    ('0' as int + d) as char
  }

  /** The number a string of decimal digits denotes. */
  function DecimalValue(s: string): nat
    requires AllDigits(s)
  {
    if s == [] then 0 else DecimalValue(s[..|s| - 1]) * 10 + DigitValue(s[|s| - 1])
  }

  /** `str(n)`: decimal digits, with no leading zero. */
  function DecimalString(n: nat): (s: string)
    ensures s != [] && AllDigits(s)
    ensures |s| > 1 ==> s[0] != '0'
  {
    if n < 10 then [DigitChar(n)] else DecimalString(n / 10) + [DigitChar(n % 10)]
  }

  /** Reading back the digits of `str(n)` gives `n`. */
  lemma {:induction false} DecimalRoundTrip(n: nat)
    ensures DecimalValue(DecimalString(n)) == n
  {
    if n >= 10 {
      var s := DecimalString(n);
      assert s[..|s| - 1] == DecimalString(n / 10);
      DecimalRoundTrip(n / 10);
    }
  }

  /** `int(s)` on a string of ASCII digits: the empty string raises. */
  function ParseInt(s: string): (r: Result<nat>)
    requires AllDigits(s)
    ensures r.Err? <==> s == ""
    ensures r.Err? ==> r.message == InvalidIntMessage
  {
    if s == "" then Err(InvalidIntMessage) else Ok(DecimalValue(s))
  }

  /** `int(re.sub(r'\D', '', x))`. */
  function ParsePart(x: string): (r: Result<nat>)
    ensures r.Err? <==> KeepDigits(x) == ""
  {
    ParseInt(KeepDigits(x))
  }

  /** The list comprehension over the parts, evaluated left to right: the
      first part without digits raises and ends it. */
  function ParseParts(parts: seq<string>): (r: Result<seq<nat>>)
    ensures r.Ok? <==> forall i :: 0 <= i < |parts| ==> KeepDigits(parts[i]) != ""
    ensures r.Err? ==> r.message == InvalidIntMessage
    ensures r.Ok? ==> |r.value| == |parts|
    ensures r.Ok? ==> forall i :: 0 <= i < |parts| ==> ParsePart(parts[i]) == Ok(r.value[i])
  {
    if parts == [] then Ok([])
    else
      match ParsePart(parts[0])
      case Err(m) => Err(m)
      case Ok(n) =>
        match ParseParts(parts[1..])
        case Err(m) => Err(m)
        case Ok(ns) =>
          assert forall i :: 1 <= i < |parts| ==> parts[i] == parts[1..][i - 1];
          Ok([n] + ns)
  }

  /** `[int(re.sub(r'\D', '', x)) for x in v.lstrip('v').split('.')]`. */
  function ParseVersion(v: string): (r: Result<seq<nat>>)
    ensures r.Ok? ==> |r.value| >= 1
  {
    ParseParts(SplitOn(TrimStartChar(v, 'v'), '.'))
  }

  /** A version written from a list of numbers. */
  function FormatVersion(parts: seq<nat>): (s: string)
    requires |parts| >= 1
  {
    JoinOn(DecimalStrings(parts), '.')
  }

  function DecimalStrings(parts: seq<nat>): (r: seq<string>)
    ensures |r| == |parts|
    ensures forall i :: 0 <= i < |parts| ==> r[i] == DecimalString(parts[i])
  {
    if parts == [] then [] else [DecimalString(parts[0])] + DecimalStrings(parts[1..])
  }

  /** Each written number parses back to itself. */
  lemma {:induction false} ParseDecimalStrings(parts: seq<nat>)
    ensures ParseParts(DecimalStrings(parts)) == Ok(parts)
  {
    if parts != [] {
      var d := DecimalString(parts[0]);
      assert KeepDigits(d) == d;
      DecimalRoundTrip(parts[0]);
      assert ParsePart(d) == Ok(parts[0]);
      assert DecimalStrings(parts)[0] == d;
      assert DecimalStrings(parts)[1..] == DecimalStrings(parts[1..]);
      ParseDecimalStrings(parts[1..]);
      assert [parts[0]] + parts[1..] == parts;
    }
  }

  /** A written version starts with a digit, never with a 'v'. */
  lemma FormatStartsWithDigit(parts: seq<nat>)
    requires |parts| >= 1
    ensures FormatVersion(parts) != [] && IsDigit(FormatVersion(parts)[0])
  {
    var strings := DecimalStrings(parts);
    JoinOnStartsWith(strings, '.');
    assert FormatVersion(parts)[0] == strings[0][0];
  }

  /** Parsing gives back the numbers a version was written from, with or
      without any number of leading 'v's. */
  lemma FormatParseRoundTrip(parts: seq<nat>, vs: nat)
    requires |parts| >= 1
    ensures ParseVersion(seq(vs, _ => 'v') + FormatVersion(parts)) == Ok(parts)
  {
    var strings := DecimalStrings(parts);
    forall i | 0 <= i < |strings| ensures '.' !in strings[i] {
      assert AllDigits(strings[i]);
    }
    SplitJoinOn(strings, '.');
    FormatStartsWithDigit(parts);
    TrimVs(vs, FormatVersion(parts));
    ParseDecimalStrings(parts);
  }

  lemma {:induction false} JoinOnStartsWith(parts: seq<string>, sep: char)
    requires |parts| >= 1
    ensures |parts[0]| <= |JoinOn(parts, sep)| && JoinOn(parts, sep)[..|parts[0]|] == parts[0]
  {
  }

  /** `lstrip('v')` removes exactly the leading 'v's. */
  lemma {:induction false} TrimVs(vs: nat, s: string)
    requires s == [] || s[0] != 'v'
    ensures TrimStartChar(seq(vs, _ => 'v') + s, 'v') == s
  {
    var t := seq(vs, _ => 'v') + s;
    if vs > 0 {
      assert t[0] == 'v';
      assert t[1..] == seq(vs - 1, _ => 'v') + s;
      TrimVs(vs - 1, s);
    } else {
      assert t == s;
    }
  }

  /** A part with no digit at all makes the whole parse raise. */
  lemma NoDigitPartFails(v: string, i: nat)
    requires var parts := SplitOn(TrimStartChar(v, 'v'), '.');
      i < |parts| && KeepDigits(parts[i]) == ""
    ensures ParseVersion(v) == Err(InvalidIntMessage)
  {
  }

  // ---------------------------------------------------------------------------
  // Comparing versions

  /** Python's `a < b` on lists of integers. */
  predicate Less(a: seq<int>, b: seq<int>): (less: bool)
    ensures less ==> a != b && b != []
    decreases |a|
  {
    if a == [] then b != []
    else if b == [] then false
    else if a[0] != b[0] then a[0] < b[0]
    else Less(a[1..], b[1..])
  }

  /** The textbook definition of lexicographic order: after a common
      prefix, either `a` has ended and `b` has not, or the first differing
      element of `a` is the smaller. */
  predicate LessAt(a: seq<int>, b: seq<int>, k: nat) {
    && k <= |a| && k <= |b| && a[..k] == b[..k]
    && ((k == |a| && k < |b|) || (k < |a| && k < |b| && a[k] < b[k]))
  }

  lemma {:induction false} LessHasWitness(a: seq<int>, b: seq<int>)
    requires Less(a, b)
    ensures exists k :: LessAt(a, b, k)
    decreases |a|
  {
    if a == [] {
      assert LessAt(a, b, 0);
    } else if a[0] != b[0] {
      assert LessAt(a, b, 0);
    } else {
      LessHasWitness(a[1..], b[1..]);
      var k: nat :| LessAt(a[1..], b[1..], k);
      assert a[..k + 1] == [a[0]] + a[1..][..k];
      assert b[..k + 1] == [b[0]] + b[1..][..k];
      assert LessAt(a, b, k + 1);
    }
  }

  lemma {:induction false} WitnessGivesLess(a: seq<int>, b: seq<int>, k: nat)
    requires LessAt(a, b, k)
    ensures Less(a, b)
    decreases k
  {
    if k > 0 {
      assert a[0] == a[..k][0] == b[..k][0] == b[0];
      assert a[1..][..k - 1] == a[..k][1..];
      assert b[1..][..k - 1] == b[..k][1..];
      WitnessGivesLess(a[1..], b[1..], k - 1);
    }
  }

  /** `Less` is exactly lexicographic order. */
  lemma LessIffLexicographic(a: seq<int>, b: seq<int>)
    ensures Less(a, b) <==> exists k :: LessAt(a, b, k)
  {
    if Less(a, b) {
      LessHasWitness(a, b);
    } else if k: nat :| LessAt(a, b, k) {
      WitnessGivesLess(a, b, k);
    }
  }

  lemma {:induction false} LessTransitive(a: seq<int>, b: seq<int>, c: seq<int>)
    requires Less(a, b) && Less(b, c)
    ensures Less(a, c)
    decreases |a|
  {
    if a != [] && a[0] == b[0] && b[0] == c[0] {
      LessTransitive(a[1..], b[1..], c[1..]);
    }
  }

  /** Any two lists are equal or ordered one way, never both. */
  lemma {:induction false} LessTrichotomy(a: seq<int>, b: seq<int>)
    ensures a == b || Less(a, b) || Less(b, a)
    ensures !(Less(a, b) && Less(b, a))
    decreases |a|
  {
    if a != [] && b != [] && a[0] == b[0] {
      LessTrichotomy(a[1..], b[1..]);
      if a[1..] == b[1..] {
        assert a == [a[0]] + a[1..] && b == [b[0]] + b[1..];
      }
    }
  }

  /** A proper prefix is older: "1.2" is older than "1.2.0". */
  lemma {:induction false} ProperPrefixIsLess(a: seq<int>, tail: seq<int>)
    requires tail != []
    ensures Less(a, a + tail)
    decreases |a|
  {
    if a != [] {
      assert (a + tail)[1..] == a[1..] + tail;
      ProperPrefixIsLess(a[1..], tail);
    }
  }

  // ---------------------------------------------------------------------------
  // The checker thread

  /** What the HTTP request yields: the `tag_name` of the latest release, or
      the text of the exception raised while fetching it. */
  datatype Fetch = Fetched(tagName: string) | FetchFailed(message: string)

  /** The one signal `run` emits. */
  datatype CheckOutcome = UpdateAvailable(newVersion: string) | NoUpdate | CheckError(message: string)

  /** `UpdateCheckerThread.run`: fetch, parse the current version, parse
      the latest tag, compare. */
  function CheckForUpdate(current: string, fetch: Fetch): (r: CheckOutcome)
    ensures fetch.FetchFailed? ==> r == CheckError(fetch.message)
    ensures r.UpdateAvailable? ==> fetch.Fetched? && r.newVersion == fetch.tagName
    ensures fetch.Fetched? && r.CheckError? ==> r.message == InvalidIntMessage
  {
    match fetch
    case FetchFailed(m) => CheckError(m)
    case Fetched(tag) =>
      match ParseVersion(current)
      case Err(m) => CheckError(m)
      case Ok(cur) =>
        match ParseVersion(tag)
        case Err(m) => CheckError(m)
        case Ok(latest) => if Less(cur, latest) then UpdateAvailable(tag) else NoUpdate
  }

  /** An update is reported, with the raw tag, exactly when both versions
      parse and the latest is lexicographically greater; when both parse
      and it is not, "no update" is reported. */
  lemma UpdateIffNewer(current: string, tag: string)
    ensures var r := CheckForUpdate(current, Fetched(tag));
      var cur, latest := ParseVersion(current), ParseVersion(tag);
      && (r == UpdateAvailable(tag) <==> cur.Ok? && latest.Ok? && Less(cur.value, latest.value))
      && (r == NoUpdate <==> cur.Ok? && latest.Ok? && !Less(cur.value, latest.value))
      && (r.CheckError? <==> cur.Err? || latest.Err?)
  {
  }

  /** The same release, tagged with or without 'v's, is never an update. */
  lemma SameVersionNoUpdate(parts: seq<nat>, vs: nat, ws: nat)
    requires |parts| >= 1
    ensures CheckForUpdate(seq(vs, _ => 'v') + FormatVersion(parts),
                           Fetched(seq(ws, _ => 'v') + FormatVersion(parts))) == NoUpdate
  {
    FormatParseRoundTrip(parts, vs);
    FormatParseRoundTrip(parts, ws);
  }

  /** The comparison is numeric, not textual: after equal leading
      numbers, the larger number wins whatever its digit count. */
  lemma NumericComparison(prefix: seq<nat>, m: nat, n: nat)
    requires m < n
    ensures CheckForUpdate(FormatVersion(prefix + [m]), Fetched(FormatVersion(prefix + [n])))
      == UpdateAvailable(FormatVersion(prefix + [n]))
  {
    var a, b := prefix + [m], prefix + [n];
    FormatParseRoundTrip(a, 0);
    FormatParseRoundTrip(b, 0);
    assert seq(0, _ => 'v') + FormatVersion(a) == FormatVersion(a);
    assert seq(0, _ => 'v') + FormatVersion(b) == FormatVersion(b);
    assert a[..|prefix|] == prefix == b[..|prefix|];
    WitnessGivesLess(a, b, |prefix|);
  }

  lemma NineAndTenWritten()
    ensures FormatVersion([1, 9]) == "1.9" && FormatVersion([1, 10]) == "1.10"
  {
    assert DecimalString(10) == "10";
    assert DecimalStrings([1, 9]) == ["1", "9"];
    assert DecimalStrings([1, 10]) == ["1", "10"];
  }

  /** So "1.10" is newer than "1.9". */
  lemma TenIsNewerThanNine()
    ensures CheckForUpdate("1.9", Fetched("1.10")) == UpdateAvailable("1.10")
  {
    NineAndTenWritten();
    assert [1] + [9] == [1, 9] && [1] + [10] == [1, 10];
    NumericComparison([1], 9, 10);
  }

  /** A longer tag with the same leading numbers counts as newer. */
  lemma LongerTagIsNewer(parts: seq<nat>, extra: seq<nat>)
    requires |parts| >= 1 && |extra| >= 1
    ensures CheckForUpdate(FormatVersion(parts), Fetched(FormatVersion(parts + extra)))
      == UpdateAvailable(FormatVersion(parts + extra))
  {
    FormatParseRoundTrip(parts, 0);
    FormatParseRoundTrip(parts + extra, 0);
    assert seq(0, _ => 'v') + FormatVersion(parts) == FormatVersion(parts);
    assert seq(0, _ => 'v') + FormatVersion(parts + extra) == FormatVersion(parts + extra);
    ProperPrefixIsLess(parts, extra);
  }

  // ---------------------------------------------------------------------------
  // The dialog

  /** The notice the handler of each signal shows. */
  function NoticeFor(outcome: CheckOutcome): (n: Notice)
    ensures n.level == Success <==> outcome.UpdateAvailable?
    ensures n.level == Error <==> outcome.CheckError?
    ensures outcome.CheckError? ==> n.content == "错误信息：" + outcome.message
  {
    match outcome
    case UpdateAvailable(v) => Notice(Success, "发现新版本", "有新版本 " + v + " 可用，请前往 GitHub 下载")
    case NoUpdate => Notice(Info, "检查更新", "当前已是最新版本")
    case CheckError(m) => Notice(Error, "检查更新失败", "错误信息：" + m)
  }

  class AboutDialog {
    var buttonEnabled: bool
    var buttonText: string
    /** Every notice shown, oldest first. */
    var notices: seq<Notice>

    constructor ()
      ensures buttonEnabled && buttonText == CheckText && notices == []
    {
      buttonEnabled, buttonText, notices := true, CheckText, [];
    }

    /** `check_update`, up to starting the thread. */
    method CheckUpdate()
      modifies this`buttonEnabled, this`buttonText
      ensures !buttonEnabled && buttonText == CheckingText
    {
      buttonEnabled := false;
      buttonText := CheckingText;
    }

    /** `on_update_available`, `on_no_update` and `on_check_error`: each
        restores the button text and shows its notice. */
    method OnOutcome(outcome: CheckOutcome)
      modifies this`buttonText, this`notices
      ensures buttonText == CheckText
      ensures notices == old(notices) + [NoticeFor(outcome)]
    {
      buttonText := CheckText;
      notices := notices + [NoticeFor(outcome)];
    }

    /** The lambda connected to the thread's `finished`. */
    method OnFinished()
      modifies this`buttonEnabled
      ensures buttonEnabled
    {
      buttonEnabled := true;
    }

    /** One click on the button: the thread emits exactly one of its three
        signals, then `finished`. The button ends enabled with its first
        text, and exactly one notice is added. */
    method RunUpdateCheck(current: string, fetch: Fetch) returns (outcome: CheckOutcome)
      modifies this`buttonEnabled, this`buttonText, this`notices
      ensures outcome == CheckForUpdate(current, fetch)
      ensures buttonEnabled && buttonText == CheckText
      ensures notices == old(notices) + [NoticeFor(outcome)]
    {
      CheckUpdate();
      outcome := CheckForUpdate(current, fetch);
      OnOutcome(outcome);
      OnFinished();
    }
  }
}
