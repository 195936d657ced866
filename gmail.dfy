/** The Gmail helpers that turn a Gmail API message payload into text: the
    body search over a MIME part tree (multipart bodies as in section 5.1 of
    RFC 2046), the case-insensitive header lookup, and the line filter that
    cleans a body of quotes, reply headers and signatures. Base64url decoding
    (section 5 of RFC 4648 followed by UTF-8) and the regular expressions the
    filter uses for reply headers, "Sent via" lines, phone numbers and URLs
    are parameters. */
module Gmail {
  import opened Wrappers
  import opened Text

  // ------------------------------------------------------------ bodies

  /** The "body" object of a part; `data` is its base64url text, if any. */
  datatype Body = Body(data: Option<string>)

  /** A payload or one of its parts; a key that is absent is `None`.
      `hasParts` says whether the "parts" key is present, and `parts` is then
      its list of nested parts. */
  datatype MimePart = MimePart(mimeType: Option<string>, body: Option<Body>, hasParts: bool, parts: seq<MimePart>)

  const TextPlain: string := "text/plain"
  const TextHtml: string := "text/html"

  /** `extract_body_from_part`: the decoded body data, or "" when the part
      has no body data. */
  function ExtractBody(part: MimePart, decode: string -> string): (r: string)
    ensures part.body.None? || part.body.value.data.None? ==> r == ""
    ensures part.body.Some? && part.body.value.data.Some? ==> r == decode(part.body.value.data.value)
  {
    if part.body.Some? && part.body.value.data.Some? then decode(part.body.value.data.value) else ""
  }

  /** `search_parts_recursively`: a pass preferring text/plain, then a pass
      for text/html; in both, a part's nested parts are searched before its
      own type, and a non-empty nested result is returned at once. */
  function SearchParts(parts: seq<MimePart>, decode: string -> string): (r: string)
    ensures NoTextPart(parts) ==> r == ""
    decreases parts, 1, 0
  {
    var plain := ScanPlain(parts, 0, decode);
    if plain.Some? then plain.value
    else
      var html := ScanHtml(parts, 0, decode);
      if html.Some? then html.value else ""
  }

  /** The text/plain pass from index `i`: `None` when it runs to the end. */
  function ScanPlain(parts: seq<MimePart>, i: nat, decode: string -> string): (r: Option<string>)
    requires i <= |parts|
    ensures NoTextPart(parts) ==> r.None?
    decreases parts, 0, |parts| - i
  {
    if i == |parts| then None
    else
      var part := parts[i];
      var nested := if part.hasParts then SearchParts(part.parts, decode) else "";
      if nested != "" then Some(nested)
      else if part.mimeType == Some(TextPlain) then Some(ExtractBody(part, decode))
      else ScanPlain(parts, i + 1, decode)
  }

  /** The text/html pass from index `i`. */
  function ScanHtml(parts: seq<MimePart>, i: nat, decode: string -> string): (r: Option<string>)
    requires i <= |parts|
    ensures NoTextPart(parts) ==> r.None?
    decreases parts, 0, |parts| - i
  {
    if i == |parts| then None
    else
      var part := parts[i];
      var nested := if part.hasParts then SearchParts(part.parts, decode) else "";
      if nested != "" then Some(nested)
      else if part.mimeType == Some(TextHtml) then Some(ExtractBody(part, decode))
      else ScanHtml(parts, i + 1, decode)
  }

  /** `get_email_body`: search a multipart payload; read a single-part
      payload only when it is text/plain or text/html. A single-part payload
      gives its decoded data exactly when it is text/plain or text/html and
      has data, and "" otherwise; a multipart payload with no text part
      anywhere gives "". */
  function GetEmailBody(payload: MimePart, decode: string -> string): (r: string)
    ensures !payload.hasParts ==>
      var isText := payload.mimeType == Some(TextPlain) || payload.mimeType == Some(TextHtml);
      r == if isText && payload.body.Some? && payload.body.value.data.Some?
           then decode(payload.body.value.data.value) else ""
    ensures payload.hasParts && NoTextPart(payload.parts) ==> r == ""
  {
    if payload.hasParts then SearchParts(payload.parts, decode)
    else if payload.mimeType == Some(TextPlain) || payload.mimeType == Some(TextHtml) then ExtractBody(payload, decode)
    else ""
  }

  /** No part anywhere in the tree is text/plain or text/html. */
  predicate NoTextPart(parts: seq<MimePart>)
    decreases parts
  {
    forall i | 0 <= i < |parts| ::
      && parts[i].mimeType != Some(TextPlain)
      && parts[i].mimeType != Some(TextHtml)
      && (parts[i].hasParts ==> NoTextPart(parts[i].parts))
  }

  /** None of `parts[lo..hi]` has nested parts that give a body. */
  predicate NoNestedText(parts: seq<MimePart>, lo: nat, hi: nat, decode: string -> string)
    requires lo <= hi <= |parts|
  {
    forall j | lo <= j < hi && parts[j].hasParts :: SearchParts(parts[j].parts, decode) == ""
  }

  /** On one level, the first text/plain part ends the search, even when its
      decoded body is "" and even when a text/html part comes before it,
      provided no part up to it has nested parts that give a body. */
  lemma FirstPlainWins(parts: seq<MimePart>, k: nat, decode: string -> string)
    requires k < |parts| && parts[k].mimeType == Some(TextPlain)
    requires forall j | 0 <= j < k :: parts[j].mimeType != Some(TextPlain)
    requires NoNestedText(parts, 0, k + 1, decode)
    ensures SearchParts(parts, decode) == ExtractBody(parts[k], decode)
  {
    PlainScanFrom(parts, 0, k, decode);
  }

  lemma {:induction false} PlainScanFrom(parts: seq<MimePart>, i: nat, k: nat, decode: string -> string)
    requires i <= k < |parts| && parts[k].mimeType == Some(TextPlain)
    requires forall j | i <= j < k :: parts[j].mimeType != Some(TextPlain)
    requires NoNestedText(parts, i, k + 1, decode)
    ensures ScanPlain(parts, i, decode) == Some(ExtractBody(parts[k], decode))
    decreases k - i
  {
    if i < k {
      PlainScanFrom(parts, i + 1, k, decode);
    }
  }

  /** On one level without text/plain and without nested parts that give a
      body, the first text/html part gives the body, even when its decoded
      body is "": text/html is looked at only after the whole level was
      scanned for text/plain. */
  lemma HtmlOnlyWithoutPlain(parts: seq<MimePart>, k: nat, decode: string -> string)
    requires k < |parts| && parts[k].mimeType == Some(TextHtml)
    requires forall j | 0 <= j < |parts| :: parts[j].mimeType != Some(TextPlain)
    requires forall j | 0 <= j < k :: parts[j].mimeType != Some(TextHtml)
    requires NoNestedText(parts, 0, |parts|, decode)
    ensures SearchParts(parts, decode) == ExtractBody(parts[k], decode)
  {
    PlainScanMisses(parts, 0, decode);
    HtmlScanFrom(parts, 0, k, decode);
  }

  lemma {:induction false} PlainScanMisses(parts: seq<MimePart>, i: nat, decode: string -> string)
    requires i <= |parts|
    requires forall j | i <= j < |parts| :: parts[j].mimeType != Some(TextPlain)
    requires NoNestedText(parts, i, |parts|, decode)
    ensures ScanPlain(parts, i, decode).None?
    decreases |parts| - i
  {
    if i < |parts| {
      PlainScanMisses(parts, i + 1, decode);
    }
  }

  lemma {:induction false} HtmlScanFrom(parts: seq<MimePart>, i: nat, k: nat, decode: string -> string)
    requires i <= k < |parts| && parts[k].mimeType == Some(TextHtml)
    requires forall j | i <= j < k :: parts[j].mimeType != Some(TextHtml)
    requires NoNestedText(parts, i, k + 1, decode)
    ensures ScanHtml(parts, i, decode) == Some(ExtractBody(parts[k], decode))
    decreases k - i
  {
    if i < k {
      HtmlScanFrom(parts, i + 1, k, decode);
    }
  }

  /** Nested parts come first: when part `k` is the first whose nested parts
      give a body, and no text/plain part precedes it, the search returns
      that nested body, whatever follows at this level, text/plain included. */
  lemma NestedResultFirst(parts: seq<MimePart>, k: nat, decode: string -> string)
    requires k < |parts| && parts[k].hasParts && SearchParts(parts[k].parts, decode) != ""
    requires forall j | 0 <= j < k :: parts[j].mimeType != Some(TextPlain)
    requires NoNestedText(parts, 0, k, decode)
    ensures SearchParts(parts, decode) == SearchParts(parts[k].parts, decode)
  {
    PlainScanReachesNested(parts, 0, k, decode);
  }

  lemma {:induction false} PlainScanReachesNested(parts: seq<MimePart>, i: nat, k: nat, decode: string -> string)
    requires i <= k < |parts| && parts[k].hasParts && SearchParts(parts[k].parts, decode) != ""
    requires forall j | i <= j < k :: parts[j].mimeType != Some(TextPlain)
    requires NoNestedText(parts, i, k, decode)
    ensures ScanPlain(parts, i, decode) == Some(SearchParts(parts[k].parts, decode))
    decreases k - i
  {
    if i < k {
      PlainScanReachesNested(parts, i + 1, k, decode);
    }
  }

  /** An instance: an html alternative nested in the first part beats a
      text/plain part that follows it at the top level. */
  lemma NestedHtmlBeatsLaterPlain(html: string, plain: string, decode: string -> string)
    requires decode(html) != ""
    ensures var nested := MimePart(Some("multipart/alternative"), None, true,
                                   [MimePart(Some(TextHtml), Some(Body(Some(html))), false, [])]);
      var top := [nested, MimePart(Some(TextPlain), Some(Body(Some(plain))), false, [])];
      SearchParts(top, decode) == decode(html)
  {
    var inner := [MimePart(Some(TextHtml), Some(Body(Some(html))), false, [])];
    HtmlOnlyWithoutPlain(inner, 0, decode);
    var nested := MimePart(Some("multipart/alternative"), None, true, inner);
    NestedResultFirst([nested, MimePart(Some(TextPlain), Some(Body(Some(plain))), false, [])], 0, decode);
  }

  // ----------------------------------------------------------- headers

  datatype Header = Header(name: string, value: string)

  predicate NameMatches(h: Header, name: string) {
    Lower(h.name) == Lower(name)
  }

  /** Header `i` is the first whose name matches `name` ignoring case. */
  predicate FirstMatchAt(headers: seq<Header>, name: string, i: int) {
    && 0 <= i < |headers| && NameMatches(headers[i], name)
    && forall j | 0 <= j < i :: !NameMatches(headers[j], name)
  }

  /** `get_header_value`: the value of the first header whose name equals
      `name` ignoring (ASCII) case, or "" when there is none. */
  function GetHeaderValue(headers: seq<Header>, name: string): (r: string)
    ensures (forall i | 0 <= i < |headers| :: !NameMatches(headers[i], name)) ==> r == ""
    ensures forall i | FirstMatchAt(headers, name, i) :: r == headers[i].value
  {
    if headers == [] then ""
    else if NameMatches(headers[0], name) then headers[0].value
    else
      var r := GetHeaderValue(headers[1..], name);
      assert forall i | FirstMatchAt(headers, name, i) :: FirstMatchAt(headers[1..], name, i - 1);
      r
  }

  lemma LowerIdempotent(s: string)
    ensures Lower(Lower(s)) == Lower(s)
  {
  }

  /** The lookup does not depend on the case of the name asked for. */
  lemma {:induction false} HeaderLookupIgnoresCase(headers: seq<Header>, name: string)
    ensures GetHeaderValue(headers, Lower(name)) == GetHeaderValue(headers, name)
  {
    LowerIdempotent(name);
    if headers != [] {
      HeaderLookupIgnoresCase(headers[1..], name);
    }
  }

  // ------------------------------------------------------- cleaning

  /** The regular expressions of `clean_email_body` that are parameters:
      each classifier is applied to the stripped line, `rewrite` (the two
      substitutions that unwrap parenthesised URLs and drop "tel:" links) to
      the original line. */
  datatype LineClassifiers = LineClassifiers(
    isReplyHeader: string -> bool,
    isSentVia: string -> bool,
    isPhone: string -> bool,
    isUrlOnly: string -> bool,
    rewrite: string -> string)

  /** The quote pattern: optional leading whitespace, then '>'. */
  predicate IsQuoteLine(line: string) {
    var l := LStrip(line);
    l != [] && l[0] == '>'
  }

  /** The signature patterns: "Sent via …", the separator "--", a phone number. */
  predicate IsSignature(stripped: string, cls: LineClassifiers) {
    cls.isSentVia(stripped) || stripped == "--" || cls.isPhone(stripped)
  }

  /** What the patterns of `clean_email_body` say about one line. */
  datatype LineView = LineView(
    stripped: string,
    isReplyHeader: bool,
    isQuote: bool,
    isSignature: bool,
    isUrlOnly: bool,
    rewritten: string)

  function ViewOf(line: string, cls: LineClassifiers): LineView {
    var stripped := Strip(line);
    LineView(stripped, cls.isReplyHeader(stripped), IsQuoteLine(line), IsSignature(stripped, cls),
             cls.isUrlOnly(stripped), cls.rewrite(line))
  }

  /** A reply header, quote or signature line: never part of the output. */
  predicate Filtered(v: LineView) {
    v.isReplyHeader || v.isQuote || v.isSignature
  }

  predicate Blank(v: LineView) {
    v.stripped == ""
  }

  /** A line whose rewritten text always reaches the output. */
  predicate Survives(v: LineView) {
    !Filtered(v) && !Blank(v) && !v.isUrlOnly
  }

  /** The loop state of `clean_email_body` after some lines: the kept lines,
      the index of the input line each came from, and the two flags. */
  datatype Cleaning = Cleaning(cleaned: seq<string>, origin: seq<nat>, inQuoteBlock: bool, consecutiveEmptyLines: nat)

  /** One turn of the loop on the `k`-th line. */
  function CleanStep(c: Cleaning, v: LineView, k: nat): (r: Cleaning)
    ensures c.cleaned <= r.cleaned && c.origin <= r.origin
    ensures |r.cleaned| - |c.cleaned| == |r.origin| - |c.origin| <= 1
    ensures Filtered(v) ==> r.cleaned == c.cleaned
    ensures Survives(v) ==> r.cleaned == c.cleaned + [v.rewritten] && r.origin == c.origin + [k]
    ensures !Blank(v) && !v.isReplyHeader ==> r.inQuoteBlock == v.isQuote
  {
    if v.isReplyHeader then c
    else if v.isQuote then c.(inQuoteBlock := true)
    else if c.inQuoteBlock && v.stripped == "" then c
    else if v.isSignature then c.(inQuoteBlock := false)
    else if v.stripped == "" then
      var empties := c.consecutiveEmptyLines + 1;
      if empties <= 1
      then Cleaning(c.cleaned + [""], c.origin + [k], false, empties)
      else c.(inQuoteBlock := false, consecutiveEmptyLines := empties)
    else if v.isUrlOnly then c.(inQuoteBlock := false, consecutiveEmptyLines := 0)
    else Cleaning(c.cleaned + [v.rewritten], c.origin + [k], false, 0)
  }

  /** The loop state after the first `n` lines. */
  function Cleaned(views: seq<LineView>, n: nat): (r: Cleaning)
    requires n <= |views|
    ensures |r.origin| == |r.cleaned| <= n
  {
    if n == 0 then Cleaning([], [], false, 0)
    else CleanStep(Cleaned(views, n - 1), views[n - 1], n - 1)
  }

  /** A quote block opens at a quote line and closes at the next non-blank
      line that is neither a quote nor a reply header. */
  lemma QuoteBlockStep(views: seq<LineView>, k: nat)
    requires k < |views|
    ensures Cleaned(views, k + 1).inQuoteBlock ==
      if views[k].isReplyHeader then Cleaned(views, k).inQuoteBlock
      else if views[k].isQuote then true
      else if !Blank(views[k]) then false
      else Cleaned(views, k).inQuoteBlock
  {
  }

  /** `out` is what a kept line contributes, where `inQuoteBlock` tells
      whether a quote block was open before it: "" for a blank line outside a
      quote block, the rewritten line for a surviving line. */
  predicate KeptLine(v: LineView, inQuoteBlock: bool, out: string) {
    && !Filtered(v)
    && if Blank(v) then out == "" && !inQuoteBlock
       else Survives(v) && out == v.rewritten
  }

  /** One turn of the loop keeps the output, or appends one line that comes
      from the current input line as `KeptLine` says; a surviving line is
      always appended. */
  lemma CleanStepOutput(c: Cleaning, v: LineView, k: nat)
    ensures var c' := CleanStep(c, v, k);
      || (c'.cleaned == c.cleaned && c'.origin == c.origin && !Survives(v))
      || (exists out :: c'.cleaned == c.cleaned + [out] && c'.origin == c.origin + [k] && KeptLine(v, c.inQuoteBlock, out))
  {
    var c' := CleanStep(c, v, k);
    if c'.origin != c.origin {
      var out := c'.cleaned[|c'.cleaned| - 1];
      assert c'.cleaned == c.cleaned + [out];
    }
  }

  /** After `n` lines, output line `m` comes from input line `origin[m]`, and
      the origins increase. */
  lemma {:induction false} CleanedOrigins(views: seq<LineView>, n: nat)
    requires n <= |views|
    ensures var c := Cleaned(views, n);
      && |c.origin| == |c.cleaned|
      && (forall m | 0 <= m < |c.origin| :: c.origin[m] < n)
      && (forall m, m' | 0 <= m < m' < |c.origin| :: c.origin[m] < c.origin[m'])
  {
    if n > 0 {
      CleanedOrigins(views, n - 1);
      CleanStepOutput(Cleaned(views, n - 1), views[n - 1], n - 1);
    }
  }

  /** Output line `m` is what its input line contributes, as `KeptLine` says,
      given whether a quote block was open before that line. */
  lemma {:induction false} CleanedKept(views: seq<LineView>, n: nat)
    requires n <= |views|
    ensures var c := Cleaned(views, n);
      && |c.origin| == |c.cleaned|
      && (forall m | 0 <= m < |c.origin| :: c.origin[m] < n)
      && (forall m | 0 <= m < |c.cleaned| ::
            KeptLine(views[c.origin[m]], Cleaned(views, c.origin[m]).inQuoteBlock, c.cleaned[m]))
  {
    CleanedOrigins(views, n);
    if n > 0 {
      CleanedKept(views, n - 1);
      CleanStepOutput(Cleaned(views, n - 1), views[n - 1], n - 1);
    }
  }

  /** Every surviving line among the first `n` is kept. */
  lemma {:induction false} CleanedSurvivors(views: seq<LineView>, n: nat)
    requires n <= |views|
    ensures forall k | 0 <= k < n && Survives(views[k]) :: k in Cleaned(views, n).origin
  {
    if n > 0 {
      CleanedSurvivors(views, n - 1);
      CleanStepOutput(Cleaned(views, n - 1), views[n - 1], n - 1);
      var c := Cleaned(views, n - 1);
      var c' := Cleaned(views, n);
      forall k | 0 <= k < n && Survives(views[k])
        ensures k in c'.origin
      {
        if k < n - 1 {
          assert k in c.origin;
        }
      }
    }
  }

  /** A URL-only line that reaches the counter: it sets
      `consecutive_empty_lines` back to 0 and is then dropped. */
  predicate UrlReset(v: LineView) {
    v.isUrlOnly && !Filtered(v) && !Blank(v)
  }

  /** Some URL-only line lies strictly between lines `lo` and `hi`. */
  predicate ResetBetween(views: seq<LineView>, lo: nat, hi: nat)
    requires hi <= |views|
  {
    exists k | lo < k < hi :: UrlReset(views[k])
  }

  /** Later turns only append: the output after `n` lines is the output after
      `j` lines followed by lines that come from input lines `j` and on. */
  lemma {:induction false} CleanedExtends(views: seq<LineView>, j: nat, n: nat)
    requires j <= n <= |views|
    ensures var p := Cleaned(views, j).origin; var o := Cleaned(views, n).origin;
      && |p| <= |o| && o[..|p|] == p
      && forall q | |p| <= q < |o| :: o[q] >= j
  {
    if j < n {
      CleanedExtends(views, j, n - 1);
      CleanStepOutput(Cleaned(views, n - 1), views[n - 1], n - 1);
    }
  }

  /** The counter after the first `n` lines is at least 1 when the last
      kept line came from a blank line and no URL-only line has reset the
      counter since. */
  predicate CounterHolds(views: seq<LineView>, n: nat, c: Cleaning)
    requires n <= |views|
  {
    (&& |c.origin| > 0
     && c.origin[|c.origin| - 1] < n
     && Blank(views[c.origin[|c.origin| - 1]])
     && !ResetBetween(views, c.origin[|c.origin| - 1], n))
    ==> c.consecutiveEmptyLines >= 1
  }

  /** After a kept blank line, the counter stays at least 1 until a URL-only
      line resets it. */
  lemma {:induction false} BlankCounterHolds(views: seq<LineView>, n: nat)
    requires n <= |views|
    ensures CounterHolds(views, n, Cleaned(views, n))
  {
    if n > 0 {
      var c0 := Cleaned(views, n - 1);
      BlankCounterHolds(views, n - 1);
      LastOriginBelow(views, n - 1);
      CounterHoldsStep(views, n, c0);
      assert Cleaned(views, n) == CleanStep(c0, views[n - 1], n - 1);
    }
  }

  /** The inductive step of `BlankCounterHolds`, for the turn on line `n - 1`. */
  lemma CounterHoldsStep(views: seq<LineView>, n: nat, c0: Cleaning)
    requires 0 < n <= |views|
    requires var o := c0.origin; |o| > 0 ==> o[|o| - 1] < n - 1
    requires CounterHolds(views, n - 1, c0)
    ensures CounterHolds(views, n, CleanStep(c0, views[n - 1], n - 1))
  {
    var c := CleanStep(c0, views[n - 1], n - 1);
    CounterStep(c0, views[n - 1], n - 1);
    if c.origin == c0.origin && |c.origin| > 0 {
      var lo := c.origin[|c.origin| - 1];
      if !ResetBetween(views, lo, n) {
        assert !UrlReset(views[n - 1]);
        assert !ResetBetween(views, lo, n - 1);
      }
    }
  }

  /** One turn and the counter: a turn that appends a blank line leaves it at
      1, and a turn that appends nothing keeps it at least 1 unless the line
      is a URL-only line that resets it. */
  lemma CounterStep(c: Cleaning, v: LineView, k: nat)
    ensures var c' := CleanStep(c, v, k);
      && (c'.origin != c.origin ==> c'.origin == c.origin + [k] && (Blank(v) ==> c'.consecutiveEmptyLines == 1))
      && (c'.origin == c.origin && c.consecutiveEmptyLines >= 1 && !UrlReset(v) ==> c'.consecutiveEmptyLines >= 1)
  {
  }

  /** The last output line comes from an input line already read. */
  lemma {:induction false} LastOriginBelow(views: seq<LineView>, n: nat)
    requires n <= |views|
    ensures var o := Cleaned(views, n).origin; |o| > 0 ==> o[|o| - 1] < n
  {
    if n > 0 {
      LastOriginBelow(views, n - 1);
      CounterStep(Cleaned(views, n - 1), views[n - 1], n - 1);
    }
  }

  /** Two output lines in a row that both come from blank lines have a
      URL-only line between them: `consecutive_empty_lines` keeps a second
      blank line out unless that line reset the counter first. */
  lemma BlankPairsHaveReset(views: seq<LineView>, m: nat)
    requires m + 1 < |Cleaned(views, |views|).origin|
    ensures var o := Cleaned(views, |views|).origin;
      && o[m] < o[m + 1] < |views|
      && (Blank(views[o[m]]) && Blank(views[o[m + 1]]) ==> ResetBetween(views, o[m], o[m + 1]))
  {
    var o := Cleaned(views, |views|).origin;
    var j := o[m + 1];
    OutputLineTurn(views, m + 1);
    var c := Cleaned(views, j);
    CleanStepOutput(c, views[j], j);
    if Blank(views[o[m]]) && Blank(views[j]) {
      BlankCounterHolds(views, j);
    }
  }

  /** The turn that appends output line `m`: before it the output has `m`
      lines, the same as at the end, the last of them from an earlier line. */
  lemma OutputLineTurn(views: seq<LineView>, m: nat)
    requires 0 < m < |Cleaned(views, |views|).origin|
    ensures var o := Cleaned(views, |views|).origin; var j := o[m];
      && o[m - 1] < j < |views|
      && |Cleaned(views, j).origin| == m && Cleaned(views, j).origin[m - 1] == o[m - 1]
      && Cleaned(views, j + 1).origin == Cleaned(views, j).origin + [j]
  {
    var o := Cleaned(views, |views|).origin;
    CleanedOrigins(views, |views|);
    var j := o[m];
    CleanedExtends(views, j, |views|);
    CleanedExtends(views, j + 1, |views|);
    var p := Cleaned(views, j).origin;
    var q := Cleaned(views, j + 1).origin;
    CleanedOrigins(views, j);
    CleanedOrigins(views, j + 1);
    assert forall i | 0 <= i < |p| :: o[i] == p[i] && p[i] < j;
    assert |p| == m;
    assert forall i | 0 <= i < |q| :: o[i] == q[i] && q[i] < j + 1;
    assert |q| > m;
    CleanStepOutput(Cleaned(views, j), views[j], j);
  }

  /** Two blank lines in a row give one blank output line, but a URL-only
      line between them, though dropped, resets the counter first, so both
      blank lines are kept and become adjacent in the output. */
  lemma UrlLineLetsSecondBlankThrough(url: string)
    requires url != ""
    ensures var blank := LineView("", false, false, false, false, "");
      var link := LineView(url, false, false, false, true, url);
      && Cleaned([blank, blank], 2).cleaned == [""]
      && Cleaned([blank, link, blank], 3).cleaned == ["", ""]
  {
    var blank := LineView("", false, false, false, false, "");
    var link := LineView(url, false, false, false, true, url);
    var twice := [blank, blank];
    assert Cleaned(twice, 1) == Cleaning([""], [0], false, 1);
    assert Cleaned(twice, 2) == Cleaning([""], [0], false, 2);
    var split := [blank, link, blank];
    assert Cleaned(split, 1) == Cleaning([""], [0], false, 1);
    assert Cleaned(split, 2) == Cleaning([""], [0], false, 0);
    assert Cleaned(split, 3) == Cleaning(["", ""], [0, 2], false, 1);
  }

  /** The loop of `clean_email_body` over the lines' views. Output line `m`
      comes from input line `origin[m]`, in order: a blank line outside a
      quote block, kept as "", or a surviving line, kept rewritten; reply
      header, quote and signature lines never reach the output, and every
      surviving line is kept. Two kept blank lines are never adjacent in the
      output unless a URL-only line, itself dropped, lies between them: it
      resets `consecutive_empty_lines`, so `[blank, url, blank]` gives
      `["", ""]`. */
  method CleanLines(views: seq<LineView>) returns (cleaned: seq<string>, ghost origin: seq<nat>)
    ensures cleaned == Cleaned(views, |views|).cleaned && origin == Cleaned(views, |views|).origin
    ensures |origin| == |cleaned|
    ensures forall m | 0 <= m < |origin| :: origin[m] < |views|
    ensures forall m, n | 0 <= m < n < |origin| :: origin[m] < origin[n]
    ensures forall m | 0 <= m < |cleaned| :: !Filtered(views[origin[m]])
    ensures forall m | 0 <= m < |cleaned| ::
      if Blank(views[origin[m]])
      then cleaned[m] == "" && !Cleaned(views, origin[m]).inQuoteBlock
      else Survives(views[origin[m]]) && cleaned[m] == views[origin[m]].rewritten
    ensures forall k | 0 <= k < |views| && Survives(views[k]) :: k in origin
    ensures forall m | 0 <= m < |cleaned| - 1 ::
      Blank(views[origin[m]]) && Blank(views[origin[m + 1]]) ==> ResetBetween(views, origin[m], origin[m + 1])
  {
    cleaned, origin := [], [];
    var inQuoteBlock := false;
    var consecutiveEmptyLines := 0;
    var i := 0;
    while i < |views|
      invariant 0 <= i <= |views|
      invariant Cleaning(cleaned, origin, inQuoteBlock, consecutiveEmptyLines) == Cleaned(views, i)
    {
      var v := views[i];
      if v.isReplyHeader {
        i := i + 1;
        continue;
      }
      if v.isQuote {
        inQuoteBlock := true;
        i := i + 1;
        continue;
      }
      if inQuoteBlock && v.stripped != "" {
        inQuoteBlock := false;
      }
      if inQuoteBlock {
        i := i + 1;
        continue;
      }
      if v.isSignature {
        i := i + 1;
        continue;
      }
      if v.stripped == "" {
        consecutiveEmptyLines := consecutiveEmptyLines + 1;
        if consecutiveEmptyLines <= 1 {
          cleaned, origin := cleaned + [""], origin + [i];
        }
        i := i + 1;
        continue;
      }
      consecutiveEmptyLines := 0;
      if v.isUrlOnly {
        i := i + 1;
        continue;
      }
      cleaned, origin := cleaned + [v.rewritten], origin + [i];
      i := i + 1;
    }
    CleanedOutput(views);
  }

  /** What the whole loop keeps, as `CleanLines` promises it. */
  lemma CleanedOutput(views: seq<LineView>)
    ensures var c := Cleaned(views, |views|); var cleaned := c.cleaned; var origin := c.origin;
      && |origin| == |cleaned|
      && (forall m | 0 <= m < |origin| :: origin[m] < |views|)
      && (forall m, n | 0 <= m < n < |origin| :: origin[m] < origin[n])
      && (forall m | 0 <= m < |cleaned| :: !Filtered(views[origin[m]]))
      && (forall m | 0 <= m < |cleaned| ::
            if Blank(views[origin[m]])
            then cleaned[m] == "" && !Cleaned(views, origin[m]).inQuoteBlock
            else Survives(views[origin[m]]) && cleaned[m] == views[origin[m]].rewritten)
      && (forall k | 0 <= k < |views| && Survives(views[k]) :: k in origin)
      && (forall m | 0 <= m < |cleaned| - 1 ::
            Blank(views[origin[m]]) && Blank(views[origin[m + 1]]) ==> ResetBetween(views, origin[m], origin[m + 1]))
  {
    var c := Cleaned(views, |views|);
    CleanedOrigins(views, |views|);
    CleanedKept(views, |views|);
    CleanedSurvivors(views, |views|);
    forall m | 0 <= m < |c.cleaned| - 1
      ensures Blank(views[c.origin[m]]) && Blank(views[c.origin[m + 1]]) ==> ResetBetween(views, c.origin[m], c.origin[m + 1])
    {
      BlankPairsHaveReset(views, m);
    }
  }

  predicate NoTripleNewline(s: string) {
    forall i | 0 <= i < |s| - 2 :: !(s[i] == '\n' && s[i + 1] == '\n' && s[i + 2] == '\n')
  }

  /** The number of line feeds `s` starts with. */
  function LeadingNewlines(s: string): (k: nat)
    ensures k <= |s| && (forall i | 0 <= i < k :: s[i] == '\n') && (k == |s| || s[k] != '\n')
  {
    if s == [] || s[0] != '\n' then 0 else 1 + LeadingNewlines(s[1..])
  }

  /** `re.sub(r"\n{3,}", "\n\n", s)`: every run of three or more line feeds
      becomes two. */
  function CollapseNewlines(s: string): (r: string)
    ensures r == [] <==> s == []
    ensures r != [] ==> r[0] == s[0]
    decreases |s|
  {
    if s == [] then []
    else if s[0] != '\n' then [s[0]] + CollapseNewlines(s[1..])
    else
      var k := LeadingNewlines(s);
      (if k >= 3 then "\n\n" else s[..k]) + CollapseNewlines(s[k..])
  }

  /** Collapsing keeps the last character. */
  lemma {:induction false} CollapseKeepsLast(s: string)
    requires s != []
    ensures var r := CollapseNewlines(s); r[|r| - 1] == s[|s| - 1]
    decreases |s|
  {
    if s[0] != '\n' {
      if |s| > 1 {
        CollapseKeepsLast(s[1..]);
      }
    } else {
      var k := LeadingNewlines(s);
      if k < |s| {
        CollapseKeepsLast(s[k..]);
      }
    }
  }

  /** After collapsing, no three line feeds are adjacent. */
  lemma {:induction false} CollapseNoTriple(s: string)
    ensures NoTripleNewline(CollapseNewlines(s))
    decreases |s|
  {
    if s != [] && s[0] != '\n' {
      CollapseNoTriple(s[1..]);
      NoTripleAfter([s[0]], CollapseNewlines(s[1..]));
    } else if s != [] {
      var k := LeadingNewlines(s);
      CollapseNoTriple(s[k..]);
      NoTripleAfter(if k >= 3 then "\n\n" else s[..k], CollapseNewlines(s[k..]));
    }
  }

  /** At most two characters put in front of a text without three adjacent
      line feeds that does not start with one, or a single character that is
      not one, make no three adjacent line feeds. */
  lemma NoTripleAfter(run: string, rest: string)
    requires |run| <= 2 && NoTripleNewline(rest)
    requires (|run| == 1 && run[0] != '\n') || rest == [] || rest[0] != '\n'
    ensures NoTripleNewline(run + rest)
  {
    var r := run + rest;
    forall i | 0 <= i < |r| - 2
      ensures !(r[i] == '\n' && r[i + 1] == '\n' && r[i + 2] == '\n')
    {
      if i >= |run| {
        assert r[i] == rest[i - |run|] && r[i + 1] == rest[i - |run| + 1] && r[i + 2] == rest[i - |run| + 2];
      } else if i + 1 == |run| {
        assert r[i] == run[i] && r[i + 1] == rest[0];
      } else {
        assert r[i + 2] == rest[2 - |run| + i];
      }
    }
  }

  /** `n` line feeds. */
  function Newlines(n: nat): (s: string)
    ensures |s| == n && forall i | 0 <= i < n :: s[i] == '\n'
  {
    seq(n, _ => '\n')
  }

  /** A text without three adjacent line feeds is left as it is. */
  lemma {:induction false} CollapseKeepsShortRuns(s: string)
    requires NoTripleNewline(s)
    ensures CollapseNewlines(s) == s
    decreases |s|
  {
    if s != [] {
      if s[0] != '\n' {
        assert NoTripleNewline(s[1..]) by {
          forall i | 0 <= i < |s[1..]| - 2
            ensures !(s[1..][i] == '\n' && s[1..][i + 1] == '\n' && s[1..][i + 2] == '\n')
          {
            assert s[1..][i] == s[i + 1] && s[1..][i + 1] == s[i + 2] && s[1..][i + 2] == s[i + 3];
          }
        }
        CollapseKeepsShortRuns(s[1..]);
        assert s == [s[0]] + s[1..];
      } else {
        var k := LeadingNewlines(s);
        if |s| >= 3 {
          assert !(s[0] == '\n' && s[1] == '\n' && s[2] == '\n');
        }
        assert k < 3;
        assert NoTripleNewline(s[k..]) by {
          forall i | 0 <= i < |s[k..]| - 2
            ensures !(s[k..][i] == '\n' && s[k..][i + 1] == '\n' && s[k..][i + 2] == '\n')
          {
            assert s[k..][i] == s[i + k] && s[k..][i + 1] == s[i + k + 1] && s[k..][i + 2] == s[i + k + 2];
          }
        }
        CollapseKeepsShortRuns(s[k..]);
        assert s == s[..k] + s[k..];
      }
    }
  }

  /** A run of `n` line feeds becomes a run of at most two. */
  lemma CollapseRun(n: nat)
    ensures CollapseNewlines(Newlines(n)) == Newlines(if n >= 3 then 2 else n)
  {
    var s := Newlines(n);
    if n > 0 {
      assert LeadingNewlines(s) == n;
      assert s[n..] == [];
      if n < 3 {
        assert s[..n] == s;
      } else {
        assert "\n\n" == Newlines(2);
      }
    }
  }

  /** Collapsing works run by run: two texts that do not meet inside a run of
      line feeds collapse separately. Together with `CollapseRun` and a
      single other character being kept, this fixes the result on every
      text: each maximal run of three or more line feeds becomes two, and
      nothing else changes. */
  lemma {:induction false} CollapseConcat(a: string, b: string)
    requires a == [] || b == [] || a[|a| - 1] != '\n' || b[0] != '\n'
    ensures CollapseNewlines(a + b) == CollapseNewlines(a) + CollapseNewlines(b)
    decreases |a|
  {
    if a == [] {
      assert a + b == b;
    } else if b == [] {
      assert a + b == a;
    } else if a[0] != '\n' {
      assert (a + b)[0] == a[0] && (a + b)[1..] == a[1..] + b;
      CollapseConcat(a[1..], b);
    } else {
      var k := LeadingNewlines(a);
      LeadingNewlinesConcat(a, b);
      assert (a + b)[..k] == a[..k] && (a + b)[k..] == a[k..] + b;
      if k < |a| {
        CollapseConcat(a[k..], b);
      } else {
        assert a[k..] == [] && a[k..] + b == b;
      }
    }
  }

  /** The leading run of line feeds of `a` is that of `a + b` when the two
      do not meet inside a run. */
  lemma LeadingNewlinesConcat(a: string, b: string)
    requires a != [] && (b == [] || a[|a| - 1] != '\n' || b[0] != '\n')
    ensures LeadingNewlines(a + b) == LeadingNewlines(a)
  {
    var k := LeadingNewlines(a);
    assert forall i | 0 <= i < k :: (a + b)[i] == a[i];
    assert k < |a| ==> (a + b)[k] == a[k];
    assert k == |a| && b != [] ==> (a + b)[k] == b[0] && a[|a| - 1] == '\n';
    assert k == |a + b| || (a + b)[k] != '\n';
  }

  /** Stripping and then collapsing gives a text without surrounding
      whitespace and without three adjacent line feeds. */
  lemma StripThenCollapse(s: string)
    ensures var r := CollapseNewlines(Strip(s));
      && (r == [] || (!IsSpace(r[0]) && !IsSpace(r[|r| - 1])))
      && NoTripleNewline(r)
  {
    var t := Strip(s);
    CollapseNoTriple(t);
    if t != [] {
      CollapseKeepsLast(t);
      var r := CollapseNewlines(t);
      assert r[0] == t[0] && r[|r| - 1] == t[|t| - 1];
    }
  }

  /** A line the patterns let through: not all whitespace, not a quote, and
      matching none of the reply-header, "Sent via", "--", phone-number and
      URL-only patterns. */
  predicate KeptAsText(line: string, cls: LineClassifiers) {
    var s := Strip(line);
    && !AllSpace(line)
    && !IsQuoteLine(line)
    && !cls.isReplyHeader(s)
    && !cls.isSentVia(s) && s != "--" && !cls.isPhone(s)
    && !cls.isUrlOnly(s)
  }

  /** The views of the lines, one for each: a line's view is blank exactly
      when the line is all whitespace, and it survives exactly when the
      patterns let the line through. */
  function Views(lines: seq<string>, cls: LineClassifiers): (views: seq<LineView>)
    ensures |views| == |lines|
    ensures forall k | 0 <= k < |lines| ::
      && (Blank(views[k]) <==> AllSpace(lines[k]))
      && (Survives(views[k]) <==> KeptAsText(lines[k], cls))
      && views[k].rewritten == cls.rewrite(lines[k])
  {
    seq(|lines|, k requires 0 <= k < |lines| => ViewOf(lines[k], cls))
  }

  /** `clean_email_body`: a falsy body is returned as is; otherwise the body's
      lines are cleaned, joined, stripped and their blank runs collapsed. The
      result never starts or ends with whitespace and never holds three line
      feeds in a row. */
  method CleanEmailBody(body: string, cls: LineClassifiers) returns (r: string)
    ensures body == "" ==> r == ""
    ensures body != "" ==>
      var views := Views(Split(body, '\n'), cls);
      r == CollapseNewlines(Strip(Join(Cleaned(views, |views|).cleaned, "\n")))
    ensures r == [] || (!IsSpace(r[0]) && !IsSpace(r[|r| - 1]))
    ensures NoTripleNewline(r)
  {
    if body == "" {
      return body;
    }
    var lines := Split(body, '\n');
    var views := Views(lines, cls);
    var cleaned, origin := CleanLines(views);
    var result := Join(cleaned, "\n");
    result := Strip(result);
    r := CollapseNewlines(result);
    StripThenCollapse(Join(cleaned, "\n"));
  }
}
