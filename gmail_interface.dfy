/**
 * The message-shaping logic of `MimiMail/gmail_interface.py`: the search of a
 * Gmail payload tree for its `text/plain` and `text/html` bodies, the header
 * scan and body choice of `getUnreadEmails`, the base64 alphabet translation,
 * and the splicing step of `replace_urls`.
 */
module Gmail {
  import opened Basics

  // ---- payload trees ---------------------------------------------------------

  /** A part's `body` dictionary (`{'size': ..., 'data': ...}`), keys to values. */
  type Body = map<string, string>

  /**
   * A payload or message part as the Gmail API returns it. `mimeType` and
   * `body` are `None` when the key is absent; `hasParts` says whether the
   * `'parts'` key is present, and `parts` is its list.
   */
  datatype Payload = Payload(mimeType: Option<string>, body: Option<Body>, hasParts: bool, parts: seq<Payload>)

  /** The pair `(plain_text_body, html_body)`. */
  datatype Slots = Slots(plain: Option<Body>, html: Option<Body>)

  /** `part.get('mimeType', '')`. */
  function MimeOf(p: Payload): string {
    p.mimeType.GetOr("")
  }

  /** Python truthiness of a body slot: present and a non-empty dictionary. */
  predicate Truthy(b: Option<Body>) {
    b.Some? && b.value != map[]
  }

  /** `mime_type.startswith('multipart/')`. */
  predicate IsMultipart(m: string) {
    |m| >= 10 && m[..10] == "multipart/"
  }

  /** A child the search looks at: a text body or a nested multipart. */
  predicate Examined(p: Payload) {
    MimeOf(p) == "text/plain" || MimeOf(p) == "text/html" || IsMultipart(MimeOf(p))
  }

  /**
   * `_find_body_parts(payload)`. `Err` is the `KeyError` that `part['body']`
   * raises for a direct text child without a body.
   */
  function FindBodyParts(p: Payload): (r: Result<Slots>)
    ensures !p.hasParts ==> r.Ok?
    ensures r.Err? ==> r.missingKey == "body"
    decreases p
  {
    if p.hasParts then ScanParts(p.parts, Slots(None, None))
    else if MimeOf(p) == "text/plain" then Ok(Slots(p.body, None))
    else if MimeOf(p) == "text/html" then Ok(Slots(None, p.body))
    else Ok(Slots(None, None))
  }

  /** The `for part in payload['parts']` loop, from the slots `acc` it has built so far. */
  function ScanParts(children: seq<Payload>, acc: Slots): (r: Result<Slots>)
    ensures children == [] ==> r == Ok(acc)
    ensures r.Err? ==> r.missingKey == "body"
    decreases children
  {
    if children == [] then Ok(acc)
    else
      var c := children[0];
      if MimeOf(c) == "text/plain" then
        if c.body.None? then Err("body") else ScanParts(children[1..], acc.(plain := c.body))
      else if MimeOf(c) == "text/html" then
        if c.body.None? then Err("body") else ScanParts(children[1..], acc.(html := c.body))
      else if IsMultipart(MimeOf(c)) then
        match FindBodyParts(c)
        case Err(k) => Err(k)
        case Ok(nested) =>
          ScanParts(children[1..], Slots(if Truthy(nested.plain) && !Truthy(acc.plain) then nested.plain else acc.plain,
                                         if Truthy(nested.html) && !Truthy(acc.html) then nested.html else acc.html))
      else ScanParts(children[1..], acc)
  }

  /** A payload without parts is its own body, by mime type. */
  lemma LeafBodyParts(p: Payload)
    requires !p.hasParts
    ensures MimeOf(p) == "text/plain" ==> FindBodyParts(p) == Ok(Slots(p.body, None))
    ensures MimeOf(p) == "text/html" ==> FindBodyParts(p) == Ok(Slots(None, p.body))
    ensures !(MimeOf(p) in {"text/plain", "text/html"}) ==> FindBodyParts(p) == Ok(Slots(None, None))
  {
  }

  /** A payload with parts is judged by its children alone. */
  lemma ContainerIgnoresOwnFields(p: Payload, mimeType: Option<string>, body: Option<Body>)
    requires p.hasParts
    ensures FindBodyParts(p) == FindBodyParts(p.(mimeType := mimeType, body := body))
  {
  }

  /** The children the search examines. */
  function ExaminedOnly(children: seq<Payload>): (r: seq<Payload>)
    ensures |r| <= |children|
    ensures forall i :: 0 <= i < |r| ==> Examined(r[i])
  {
    if children == [] then []
    else (if Examined(children[0]) then [children[0]] else []) + ExaminedOnly(children[1..])
  }

  /** Children that are neither text bodies nor multiparts make no difference. */
  lemma {:induction false} OtherChildrenIgnored(children: seq<Payload>, acc: Slots)
    ensures ScanParts(children, acc) == ScanParts(ExaminedOnly(children), acc)
  {
    if children != [] {
      var c := children[0];
      if Examined(c) {
        var rest := ExaminedOnly(children[1..]);
        assert ExaminedOnly(children) == [c] + rest;
        assert ([c] + rest)[1..] == rest;
        if MimeOf(c) == "text/plain" {
          if c.body.Some? {
            OtherChildrenIgnored(children[1..], acc.(plain := c.body));
          }
        } else if MimeOf(c) == "text/html" {
          if c.body.Some? {
            OtherChildrenIgnored(children[1..], acc.(html := c.body));
          }
        } else if FindBodyParts(c).Ok? {
          var nested := FindBodyParts(c).value;
          OtherChildrenIgnored(children[1..],
            Slots(if Truthy(nested.plain) && !Truthy(acc.plain) then nested.plain else acc.plain,
                  if Truthy(nested.html) && !Truthy(acc.html) then nested.html else acc.html));
        }
      } else {
        assert ExaminedOnly(children) == ExaminedOnly(children[1..]);
        OtherChildrenIgnored(children[1..], acc);
      }
    }
  }

  predicate NoPlainChild(children: seq<Payload>) {
    forall k :: 0 <= k < |children| ==> MimeOf(children[k]) != "text/plain"
  }

  predicate NoHtmlChild(children: seq<Payload>) {
    forall k :: 0 <= k < |children| ==> MimeOf(children[k]) != "text/html"
  }

  /** The first truthy plain body a nested multipart child yields, if any. */
  function NestedPlain(children: seq<Payload>): (r: Option<Body>)
    ensures r.Some? ==> Truthy(r)
  {
    if children == [] then None
    else
      var c := children[0];
      if IsMultipart(MimeOf(c)) && FindBodyParts(c).Ok? && Truthy(FindBodyParts(c).value.plain)
      then FindBodyParts(c).value.plain
      else NestedPlain(children[1..])
  }

  /** The first truthy html body a nested multipart child yields, if any. */
  function NestedHtml(children: seq<Payload>): (r: Option<Body>)
    ensures r.Some? ==> Truthy(r)
  {
    if children == [] then None
    else
      var c := children[0];
      if IsMultipart(MimeOf(c)) && FindBodyParts(c).Ok? && Truthy(FindBodyParts(c).value.html)
      then FindBodyParts(c).value.html
      else NestedHtml(children[1..])
  }

  /**
   * With no direct `text/plain` child left, the plain slot keeps its value if
   * it is truthy, and otherwise is filled with the first truthy value a nested
   * multipart yields, if there is one.
   */
  lemma {:induction false} PlainSlotFill(children: seq<Payload>, acc: Slots)
    requires NoPlainChild(children)
    requires ScanParts(children, acc).Ok?
    ensures ScanParts(children, acc).value.plain
            == if Truthy(acc.plain) || NestedPlain(children).None? then acc.plain else NestedPlain(children)
  {
    if children != [] {
      var c := children[0];
      assert MimeOf(c) != "text/plain";
      assert NoPlainChild(children[1..]) by {
        forall k | 0 <= k < |children[1..]| ensures MimeOf(children[1..][k]) != "text/plain" {
          assert children[1..][k] == children[k + 1];
        }
      }
      if MimeOf(c) == "text/html" {
        PlainSlotFill(children[1..], acc.(html := c.body));
      } else if IsMultipart(MimeOf(c)) {
        var nested := FindBodyParts(c).value;
        PlainSlotFill(children[1..],
          Slots(if Truthy(nested.plain) && !Truthy(acc.plain) then nested.plain else acc.plain,
                if Truthy(nested.html) && !Truthy(acc.html) then nested.html else acc.html));
      } else {
        PlainSlotFill(children[1..], acc);
      }
    }
  }

  /** The same rule for the html slot. */
  lemma {:induction false} HtmlSlotFill(children: seq<Payload>, acc: Slots)
    requires NoHtmlChild(children)
    requires ScanParts(children, acc).Ok?
    ensures ScanParts(children, acc).value.html
            == if Truthy(acc.html) || NestedHtml(children).None? then acc.html else NestedHtml(children)
  {
    if children != [] {
      var c := children[0];
      assert MimeOf(c) != "text/html";
      assert NoHtmlChild(children[1..]) by {
        forall k | 0 <= k < |children[1..]| ensures MimeOf(children[1..][k]) != "text/html" {
          assert children[1..][k] == children[k + 1];
        }
      }
      if MimeOf(c) == "text/plain" {
        assert !IsMultipart(MimeOf(c)) by {
          assert MimeOf(c)[..10] == "text/plain";
        }
        HtmlSlotFill(children[1..], acc.(plain := c.body));
      } else if IsMultipart(MimeOf(c)) {
        var nested := FindBodyParts(c).value;
        HtmlSlotFill(children[1..],
          Slots(if Truthy(nested.plain) && !Truthy(acc.plain) then nested.plain else acc.plain,
                if Truthy(nested.html) && !Truthy(acc.html) then nested.html else acc.html));
      } else {
        HtmlSlotFill(children[1..], acc);
      }
    }
  }

  /**
   * The last direct `text/plain` child with a non-empty body wins, whatever
   * earlier children (nested multiparts included) put in the slot.
   */
  lemma {:induction false} LastPlainChildWins(children: seq<Payload>, acc: Slots, j: nat)
    requires j < |children| && MimeOf(children[j]) == "text/plain" && Truthy(children[j].body)
    requires NoPlainChild(children[j + 1..])
    requires ScanParts(children, acc).Ok?
    ensures ScanParts(children, acc).value.plain == children[j].body
  {
    var c := children[0];
    if j == 0 {
      assert children[1..] == children[j + 1..];
      PlainSlotFill(children[1..], acc.(plain := c.body));
    } else {
      assert children[1..][j - 1] == children[j];
      assert children[1..][j - 1 + 1..] == children[j + 1..];
      if MimeOf(c) == "text/plain" {
        LastPlainChildWins(children[1..], acc.(plain := c.body), j - 1);
      } else if MimeOf(c) == "text/html" {
        LastPlainChildWins(children[1..], acc.(html := c.body), j - 1);
      } else if IsMultipart(MimeOf(c)) {
        var nested := FindBodyParts(c).value;
        LastPlainChildWins(children[1..],
          Slots(if Truthy(nested.plain) && !Truthy(acc.plain) then nested.plain else acc.plain,
                if Truthy(nested.html) && !Truthy(acc.html) then nested.html else acc.html), j - 1);
      } else {
        LastPlainChildWins(children[1..], acc, j - 1);
      }
    }
  }

  /** The same for the last direct `text/html` child with a non-empty body. */
  lemma {:induction false} LastHtmlChildWins(children: seq<Payload>, acc: Slots, j: nat)
    requires j < |children| && MimeOf(children[j]) == "text/html" && Truthy(children[j].body)
    requires NoHtmlChild(children[j + 1..])
    requires ScanParts(children, acc).Ok?
    ensures ScanParts(children, acc).value.html == children[j].body
  {
    var c := children[0];
    if j == 0 {
      assert children[1..] == children[j + 1..];
      HtmlSlotFill(children[1..], acc.(html := c.body));
    } else {
      assert children[1..][j - 1] == children[j];
      assert children[1..][j - 1 + 1..] == children[j + 1..];
      if MimeOf(c) == "text/plain" {
        LastHtmlChildWins(children[1..], acc.(plain := c.body), j - 1);
      } else if MimeOf(c) == "text/html" {
        LastHtmlChildWins(children[1..], acc.(html := c.body), j - 1);
      } else if IsMultipart(MimeOf(c)) {
        var nested := FindBodyParts(c).value;
        LastHtmlChildWins(children[1..],
          Slots(if Truthy(nested.plain) && !Truthy(acc.plain) then nested.plain else acc.plain,
                if Truthy(nested.html) && !Truthy(acc.html) then nested.html else acc.html), j - 1);
      } else {
        LastHtmlChildWins(children[1..], acc, j - 1);
      }
    }
  }

  /** A direct text child without a body raises `KeyError`, wherever it stands. */
  lemma {:induction false} BodylessTextChildFails(children: seq<Payload>, acc: Slots, j: nat)
    requires j < |children| && MimeOf(children[j]) in {"text/plain", "text/html"} && children[j].body.None?
    ensures ScanParts(children, acc).Err?
  {
    var c := children[0];
    if j > 0 {
      assert children[1..][j - 1] == children[j];
      if MimeOf(c) == "text/plain" {
        if c.body.Some? {
          BodylessTextChildFails(children[1..], acc.(plain := c.body), j - 1);
        }
      } else if MimeOf(c) == "text/html" {
        if c.body.Some? {
          BodylessTextChildFails(children[1..], acc.(html := c.body), j - 1);
        }
      } else if IsMultipart(MimeOf(c)) {
        if FindBodyParts(c).Ok? {
          var nested := FindBodyParts(c).value;
          BodylessTextChildFails(children[1..],
            Slots(if Truthy(nested.plain) && !Truthy(acc.plain) then nested.plain else acc.plain,
                  if Truthy(nested.html) && !Truthy(acc.html) then nested.html else acc.html), j - 1);
        }
      } else {
        BodylessTextChildFails(children[1..], acc, j - 1);
      }
    }
  }

  // ---- headers and body choice -----------------------------------------------

  /** One entry of `payload['headers']`. */
  datatype Header = Header(name: string, value: string)

  /** The value of the last header called `name`, if any. */
  function LastValue(headers: seq<Header>, name: string): Option<string> {
    if headers == [] then None
    else if headers[|headers| - 1].name == name then Some(headers[|headers| - 1].value)
    else LastValue(headers[..|headers| - 1], name)
  }

  /** `LastValue` finds a header of that name, and no later header has the name. */
  lemma {:induction false} LastValueIsLast(headers: seq<Header>, name: string)
    ensures LastValue(headers, name).None? <==> forall i :: 0 <= i < |headers| ==> headers[i].name != name
    ensures LastValue(headers, name).Some? ==>
              exists i :: 0 <= i < |headers| && headers[i] == Header(name, LastValue(headers, name).value)
                          && forall j :: i < j < |headers| ==> headers[j].name != name
  {
    if headers != [] {
      var init := headers[..|headers| - 1];
      LastValueIsLast(init, name);
      if headers[|headers| - 1].name == name {
        assert headers[|headers| - 1] == Header(name, LastValue(headers, name).value);
      } else if LastValue(init, name).Some? {
        var i :| 0 <= i < |init| && init[i] == Header(name, LastValue(init, name).value)
                 && forall j :: i < j < |init| ==> init[j].name != name;
        assert headers[i] == init[i];
      } else {
        assert forall i :: 0 <= i < |init| ==> headers[i] == init[i];
      }
    }
  }

  /** The loop over `headers` in `getUnreadEmails`: the last `From`, `Date` and `Subject` win. */
  method ScanHeaders(headers: seq<Header>) returns (sender: Option<string>, sentDate: Option<string>, subject: Option<string>)
    ensures sender == LastValue(headers, "From")
    ensures sentDate == LastValue(headers, "Date")
    ensures subject == LastValue(headers, "Subject")
  {
    sender, sentDate, subject := None, None, None;
    var i := 0;
    while i < |headers|
      invariant 0 <= i <= |headers|
      invariant sender == LastValue(headers[..i], "From")
      invariant sentDate == LastValue(headers[..i], "Date")
      invariant subject == LastValue(headers[..i], "Subject")
    {
      var name, value := headers[i].name, headers[i].value;
      if name == "From" {
        sender := Some(value);
      }
      if name == "Date" {
        sentDate := Some(value);
      }
      if name == "Subject" {
        subject := Some(value);
      }
      assert headers[..i + 1][..i] == headers[..i];
      i := i + 1;
    }
    assert headers[..i] == headers;
  }

  /** What `getUnreadEmails` does with the body data it picked. */
  datatype BodyPlan =
    | NoBody                    // the message gets `{}`
    | DecodeText(data: string)  // b64decode, then UTF-8 decode
    | StripHtml(data: string)   // b64decode, then BeautifulSoup's get_text()

  /** `plain_text_body['data']` if present, else `html_body['data']` if present. */
  function BodyData(s: Slots): Option<string> {
    if Truthy(s.plain) && "data" in s.plain.value then Some(s.plain.value["data"])
    else if Truthy(s.html) && "data" in s.html.value then Some(s.html.value["data"])
    else None
  }

  /**
   * Lines 113-127 of `getUnreadEmails`: the data to decode, in the standard
   * alphabet, and how. Plain data is preferred; html data is used only when
   * the plain part has none; empty or missing data gives no body.
   */
  function PlanBody(s: Slots): (r: BodyPlan)
    ensures s.plain.Some? && "data" in s.plain.value && s.plain.value["data"] != "" ==>
              r == DecodeText(ToStandardAlphabet(s.plain.value["data"]))
    ensures !(s.plain.Some? && "data" in s.plain.value) && s.html.Some? && "data" in s.html.value
            && s.html.value["data"] != "" ==>
              !r.NoBody? && r.data == ToStandardAlphabet(s.html.value["data"])
    ensures r.NoBody? <==> BodyData(s).None? || BodyData(s) == Some("")
  {
    match BodyData(s)
    case None => NoBody
    case Some(d) =>
      if d == "" then NoBody
      else if Truthy(s.html) && !Truthy(s.plain) then StripHtml(ToStandardAlphabet(d))
      else DecodeText(ToStandardAlphabet(d))
  }

  /**
   * HTML is stripped exactly when the html slot is truthy and the plain one is
   * not; so html data found because a truthy plain part lacks `'data'` is
   * decoded as text, tags and all.
   */
  lemma StripExactlyWithoutPlain(s: Slots)
    requires BodyData(s).Some? && BodyData(s) != Some("")
    ensures PlanBody(s).StripHtml? <==> Truthy(s.html) && !Truthy(s.plain)
    ensures Truthy(s.plain) && !("data" in s.plain.value) ==> PlanBody(s).DecodeText?
  {
  }

  // ---- base64 alphabets (RFC 4648, sections 4 and 5) -------------------------

  /** `s.replace(a, b)` for single characters. */
  function ReplaceChar(s: string, a: char, b: char): (r: string)
    ensures |r| == |s|
    ensures forall i :: 0 <= i < |s| ==> r[i] == if s[i] == a then b else s[i]
  {
    if s == [] then [] else [if s[0] == a then b else s[0]] + ReplaceChar(s[1..], a, b)
  }

  /** `data.replace('-', '+').replace('_', '/')`: the URL-safe alphabet of section 5
      of RFC 4648 into the standard alphabet of section 4. */
  function ToStandardAlphabet(s: string): (r: string)
    ensures |r| == |s|
    ensures forall i :: 0 <= i < |s| ==> r[i] == if s[i] == '-' then '+' else if s[i] == '_' then '/' else s[i]
    ensures forall i :: 0 <= i < |s| ==> r[i] != '-' && r[i] != '_'
  {
    ReplaceChar(ReplaceChar(s, '-', '+'), '_', '/')
  }

  /** The translation back, from section 4 to section 5 of RFC 4648. */
  function ToUrlSafeAlphabet(s: string): string {
    ReplaceChar(ReplaceChar(s, '+', '-'), '/', '_')
  }

  /** On URL-safe text (no `+` or `/`), translating there and back is the identity. */
  lemma AlphabetRoundTrip(s: string)
    requires forall i :: 0 <= i < |s| ==> s[i] != '+' && s[i] != '/'
    ensures ToUrlSafeAlphabet(ToStandardAlphabet(s)) == s
  {
  }

  // ---- replace_urls ----------------------------------------------------------

  /** `match.span()`: the half-open range `[start, end)` of one URL match. */
  datatype Span = Span(start: nat, end: nat)

  /** Spans as `re.finditer` yields them: in order, not overlapping, from `pos` on, inside the text. */
  predicate OrderedSpans(spans: seq<Span>, pos: nat, n: nat) {
    spans == [] || (pos <= spans[0].start <= spans[0].end <= n && OrderedSpans(spans[1..], spans[0].end, n))
  }

  /** The text from `pos` on with every span replaced by `rep`. */
  function Spliced(text: string, spans: seq<Span>, rep: string, pos: nat): string
    requires pos <= |text| && OrderedSpans(spans, pos, |text|)
    decreases spans
  {
    if spans == [] then text[pos..]
    else text[pos..spans[0].start] + rep + Spliced(text, spans[1..], rep, spans[0].end)
  }

  /** Splicing from `pos` is the text up to `pos` followed by splicing from there. */
  lemma {:induction false} SplicedFrom(text: string, spans: seq<Span>, rep: string, pos: nat)
    requires pos <= |text| && OrderedSpans(spans, pos, |text|)
    ensures OrderedSpans(spans, 0, |text|)
    ensures Spliced(text, spans, rep, 0) == text[..pos] + Spliced(text, spans, rep, pos)
  {
    if spans == [] {
      assert text == text[..pos] + text[pos..];
    } else {
      var s := spans[0];
      assert text[0..s.start] == text[..pos] + text[pos..s.start];
    }
  }

  /** The result's length: every span of the text is traded for `rep`. */
  function SpannedLength(spans: seq<Span>): int {
    if spans == [] then 0 else spans[0].end - spans[0].start + SpannedLength(spans[1..])
  }

  lemma {:induction false} SplicedLength(text: string, spans: seq<Span>, rep: string, pos: nat)
    requires pos <= |text| && OrderedSpans(spans, pos, |text|)
    ensures |Spliced(text, spans, rep, pos)| == |text| - pos - SpannedLength(spans) + |spans| * |rep|
  {
    if spans != [] {
      SplicedLength(text, spans[1..], rep, spans[0].end);
      assert |spans| * |rep| == |rep| + (|spans| - 1) * |rep|;
    }
  }

  /**
   * `replace_urls` after the matching: splice the spans in reverse order, so
   * that the earlier spans keep their offsets.
   */
  method ReplaceUrls(text: string, spans: seq<Span>, rep: string) returns (r: string)
    requires OrderedSpans(spans, 0, |text|)
    ensures r == Spliced(text, spans, rep, 0)
  {
    r := text;
    var i := |spans|;
    SpansSuffix(spans, 0, |text|, i);
    if i > 0 {
      SpansSuffix(spans, 0, |text|, i - 1);
    }
    while i > 0
      invariant 0 <= i <= |spans|
      invariant OrderedSpans(spans[i..], 0, |text|)
      invariant i > 0 ==> OrderedSpans(spans[i - 1..], spans[i - 1].start, |text|)
      invariant r == Spliced(text, spans[i..], rep, 0)
    {
      var s := spans[i - 1];
      ghost var rest := spans[i..];
      assert spans[i - 1..] == [s] + rest;
      SplicedFrom(text, rest, rep, s.end);
      r := r[..s.start] + rep + r[s.end..];
      i := i - 1;
      if i > 0 {
        SpansSuffix(spans, 0, |text|, i - 1);
      }
    }
  }

  /** Every suffix of ordered spans is ordered, from the start of its first span. */
  lemma {:induction false} SpansSuffix(spans: seq<Span>, pos: nat, n: nat, i: nat)
    requires OrderedSpans(spans, pos, n) && i <= |spans|
    ensures OrderedSpans(spans[i..], 0, n)
    ensures i < |spans| ==> OrderedSpans(spans[i..], spans[i].start, n)
  {
    if i > 0 {
      SpansSuffix(spans[1..], spans[0].end, n, i - 1);
      assert spans[1..][i - 1..] == spans[i..];
    } else if spans != [] {
      assert spans[0..] == spans;
    }
  }
}
