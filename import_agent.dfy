/** The deterministic part of agents/import_agent.py: recovering a JSON value
    from the model's reply (`extract_json_from_response`), validating that
    value into the schema of schemas/import_schema.py, and the guards of
    `analyze_import` around the model call (empty text, truncation, the
    confidence cap and the uniform failure result).

    `json.loads` is the parameter `parse`; reading the keys of the parsed
    dictionary into a `RawReply` is the parameter `decode`; the model's
    answer to the document text is the parameter `llm`. */
module ImportAgent {
  import opened Wrappers
  import opened TextScan

  // ---------------------------------------------------------------------
  // extract_json_from_response
  // ---------------------------------------------------------------------

  const ParseErrorPrefix: string := "Could not parse JSON from response: "
  const ParseErrorSuffix: string := "..."
  /** How much of the reply the parse error quotes. */
  const QuotedChars: nat := 500

  /** How many characters `text[:500]` keeps: all of a shorter text. */
  function QuotedLength(text: string): (n: nat)
    ensures n <= |text| && n <= QuotedChars
    ensures n == |text| || n == QuotedChars
  {
    if |text| < QuotedChars then |text| else QuotedChars
  }

  /** The message of the `ValueError` raised when no strategy parses: the
      prefix, the first 500 characters of the text (all of a shorter text),
      and an ellipsis. */
  function ParseError(text: string): (e: string)
    ensures |e| == |ParseErrorPrefix| + QuotedLength(text) + |ParseErrorSuffix|
    ensures e[..|ParseErrorPrefix|] == ParseErrorPrefix
    ensures e[|ParseErrorPrefix|..|e| - |ParseErrorSuffix|] == text[..QuotedLength(text)]
    ensures e[|e| - |ParseErrorSuffix|..] == ParseErrorSuffix
    ensures |text| <= QuotedChars ==> e == ParseErrorPrefix + text + ParseErrorSuffix
  {
    ParseErrorPrefix + text[..QuotedLength(text)] + ParseErrorSuffix
  }

  /** `extract_json_from_response(text)`: the whole text, else the interior
      of the first fenced block, else the first-`{`-to-last-`}` span; the
      first of these that parses is returned, and when none does the error
      quotes the first 500 characters of the text. */
  function ExtractJsonFromResponse<J>(text: string, parse: string -> Option<J>): (r: Result<J>)
    ensures parse(text).Some? ==> r == Success(parse(text).value)
    ensures parse(text).None? && FenceInterior(text).Some? && parse(FenceInterior(text).value).Some? ==>
      r == Success(parse(FenceInterior(text).value).value)
    ensures r.Success? ==>
      || parse(text) == Some(r.value)
      || (FenceInterior(text).Some? && parse(FenceInterior(text).value) == Some(r.value))
      || (BraceSpan(text).Some? && parse(BraceSpan(text).value) == Some(r.value))
    ensures r.Failure? <==>
      && parse(text).None?
      && (FenceInterior(text).None? || parse(FenceInterior(text).value).None?)
      && (BraceSpan(text).None? || parse(BraceSpan(text).value).None?)
    ensures r.Failure? ==> r.error == ParseError(text)
  {
    match parse(text)
    case Some(v) => Success(v)
    case None =>
      match FenceInterior(text).Some? && parse(FenceInterior(text).value).Some?
      case true => Success(parse(FenceInterior(text).value).value)
      case false =>
        match BraceSpan(text)
        case Some(span) =>
          (match parse(span)
           case Some(v) => Success(v)
           case None => Failure(ParseError(text)))
        case None => Failure(ParseError(text))
  }

  /** The strings the function hands to `json.loads`, in the order it tries
      them. */
  function Candidates(text: string): (cs: seq<string>)
    ensures 1 <= |cs| <= 3 && cs[0] == text
  {
    [text]
    + (if FenceInterior(text).Some? then [FenceInterior(text).value] else [])
    + (if BraceSpan(text).Some? then [BraceSpan(text).value] else [])
  }

  /** The parse of the first candidate that parses. */
  function FirstParsed<J>(cs: seq<string>, parse: string -> Option<J>): (r: Option<J>)
    ensures r.Some? ==> exists i :: 0 <= i < |cs| && parse(cs[i]) == r
    ensures r.None? <==> forall i :: 0 <= i < |cs| ==> parse(cs[i]).None?
  {
    if cs == [] then None
    else if parse(cs[0]).Some? then parse(cs[0])
    else
      var r := FirstParsed(cs[1..], parse);
      assert forall i :: 1 <= i < |cs| ==> cs[i] == cs[1..][i - 1];
      r
  }

  /** The extraction is "first success wins" over the candidate list: it
      succeeds exactly when some candidate parses, and then with the value of
      the earliest one. */
  lemma ExtractJsonIsFirstParsedCandidate<J>(text: string, parse: string -> Option<J>)
    ensures var r := ExtractJsonFromResponse(text, parse);
      && (r.Success? <==> FirstParsed(Candidates(text), parse).Some?)
      && (r.Success? ==> FirstParsed(Candidates(text), parse) == Some(r.value))
  {
    var f := if FenceInterior(text).Some? then [FenceInterior(text).value] else [];
    var b := if BraceSpan(text).Some? then [BraceSpan(text).value] else [];
    assert Candidates(text) == [text] + (f + b);
    FirstParsedCons(text, f + b, parse);
    if f != [] {
      assert f + b == [f[0]] + b;
      FirstParsedCons(f[0], b, parse);
    }
    if b != [] {
      FirstParsedCons(b[0], [], parse);
    }
  }

  lemma FirstParsedCons<J>(c: string, rest: seq<string>, parse: string -> Option<J>)
    ensures FirstParsed([c] + rest, parse) ==
      if parse(c).Some? then parse(c) else FirstParsed(rest, parse)
  {
    assert ([c] + rest)[1..] == rest;
  }

  /** A reply with prose before a ```json fence, a newline after the tag,
      and a non-empty body without backticks that does not start with
      whitespace: the text handed to `json.loads` is the body exactly as
      written, up to the closing fence. (Leading whitespace of a body is
      eaten by the `\s*` before the group.) */
  lemma FencedBlockInterior(prose: string, body: string)
    requires forall i :: 0 <= i < |prose| ==> prose[i] != '`'
    requires forall i :: 0 <= i < |body| ==> body[i] != '`'
    requires body != [] && !IsSpace(body[0])
    ensures FenceInterior(prose + Fence + JsonTag + "\n" + body + Fence) == Some(body)
  {
    var s := prose + Fence + JsonTag + "\n" + body + Fence;
    var o := |prose|;
    var lo := o + 8;
    var hi := lo + |body|;
    assert s[..o] == prose && s[o..o + 3] == Fence && s[o + 3..o + 7] == JsonTag;
    assert s[o + 7] == '\n' && s[lo..hi] == body && s[hi..] == Fence;
    forall i | 0 <= i < o ensures s[i] != '`' {
      assert s[i] == s[..o][i];
    }
    forall i | lo <= i < hi ensures s[i] != '`' {
      assert s[i] == s[lo..hi][i - lo];
    }
    NoBacktickNoFence(s, 0, o);
    NoBacktickNoFence(s, lo, hi);
    assert OccursAt(s, Fence, o) && OccursAt(s, JsonTag, o + 3) && OccursAt(s, Fence, hi);
    FindFromFirst(s, Fence, 0, o);
    assert TagEnd(s, o) == o + 7;
    assert s[lo] == body[0];
    SkipSpacesTo(s, o + 7, lo);
    FindFromFirst(s, Fence, lo, hi);
  }

  /** A stretch of text without a backtick holds no fence. */
  lemma NoBacktickNoFence(s: string, lo: nat, hi: nat)
    requires hi <= |s|
    requires forall i :: lo <= i < hi ==> s[i] != '`'
    ensures forall i :: lo <= i < hi ==> !OccursAt(s, Fence, i)
  {
    forall i | lo <= i < hi ensures !OccursAt(s, Fence, i) {
      if i + |Fence| <= |s| {
        assert s[i..i + |Fence|][0] == s[i];
      }
    }
  }

  // ---------------------------------------------------------------------
  // The schema (schemas/import_schema.py)
  // ---------------------------------------------------------------------

  /** The `AssetType` literal. */
  datatype AssetType = Stock | Etf | Bond | Crypto | Cash | Deposit | RealEstate | OtherType

  function AssetTypeName(t: AssetType): string {
    match t
    case Stock => "stock"
    case Etf => "etf"
    case Bond => "bond"
    case Crypto => "crypto"
    case Cash => "cash"
    case Deposit => "deposit"
    case RealEstate => "real_estate"
    case OtherType => "other"
  }

  /** Validation of a string against the `AssetType` literal. */
  function ParseAssetType(s: string): (r: Option<AssetType>)
    ensures r.Some? ==> AssetTypeName(r.value) == s
  {
    if s == "stock" then Some(Stock)
    else if s == "etf" then Some(Etf)
    else if s == "bond" then Some(Bond)
    else if s == "crypto" then Some(Crypto)
    else if s == "cash" then Some(Cash)
    else if s == "deposit" then Some(Deposit)
    else if s == "real_estate" then Some(RealEstate)
    else if s == "other" then Some(OtherType)
    else None
  }

  /** Every literal is accepted, and read back as itself. */
  lemma AssetTypeRoundTrip(t: AssetType)
    ensures ParseAssetType(AssetTypeName(t)) == Some(t)
  {
  }

  datatype ExtractedAsset = ExtractedAsset(
    name: string,
    assetType: AssetType,
    ticker: Option<string>,
    shares: real,
    currency: string,
    market: Option<string>,
    currentPrice: Option<real>,
    totalValue: Option<real>,
    confidence: real)

  datatype SourceInfo = SourceInfo(broker: Option<string>, statementDate: Option<string>, accountType: Option<string>)

  /** `SourceInfo()`: every field `None`. */
  const EmptySourceInfo: SourceInfo := SourceInfo(None, None, None)

  datatype ImportResponse = ImportResponse(
    assets: seq<ExtractedAsset>,
    sourceInfo: SourceInfo,
    warnings: seq<string>,
    confidence: real)

  /** The defaults `ExtractedAsset` gives an absent `currency` and
      `confidence`. */
  const DefaultCurrency: string := "USD"
  const DefaultAssetConfidence: real := 1.0

  // ---------------------------------------------------------------------
  // The parsed reply, before validation
  // ---------------------------------------------------------------------

  /** A key of a JSON object: missing, present with `null`, or present with
      a value of the expected JSON type. */
  datatype Field<T> = Absent | Null | Given(value: T)

  /** One element of the reply's `assets` list, as keyword arguments of
      `ExtractedAsset(**a)`. */
  datatype RawAsset = RawAsset(
    name: Field<string>,
    assetType: Field<string>,
    ticker: Field<string>,
    shares: Field<real>,
    currency: Field<string>,
    market: Field<string>,
    currentPrice: Field<real>,
    totalValue: Field<real>,
    confidence: Field<real>)

  datatype RawSourceInfo = RawSourceInfo(broker: Field<string>, statementDate: Field<string>, accountType: Field<string>)

  /** The four keys `analyze_import` reads from the parsed dictionary. */
  datatype RawReply = RawReply(
    assets: Field<seq<RawAsset>>,
    sourceInfo: Field<RawSourceInfo>,
    warnings: Field<seq<string>>,
    confidence: Field<real>)

  /** The message of a failed validation: the model and the field. */
  function ValidationError(model: string, field: string): string {
    "validation error for " + model + ": " + field
  }

  /** An `Optional[...] = None` field: `null` and absence both read `None`. */
  function OptionalField<T>(f: Field<T>): (r: Option<T>)
    ensures r.Some? <==> f.Given?
    ensures r.Some? ==> r.value == f.value
  {
    if f.Given? then Some(f.value) else None
  }

  /** A non-optional field with a default: absence reads the default, `null`
      is rejected. */
  function DefaultedField<T>(f: Field<T>, default: T, model: string, field: string): (r: Result<T>)
    ensures r.Success? <==> !f.Null?
    ensures f.Absent? ==> r == Success(default)
    ensures f.Given? ==> r == Success(f.value)
  {
    match f
    case Absent => Success(default)
    case Null => Failure(ValidationError(model, field))
    case Given(v) => Success(v)
  }

  /** `ExtractedAsset(**a)`: `name`, `type` and `shares` are required, `type`
      must be one of the literals, `currency` and `confidence` may be left
      out but not `null`, and the other fields are optional. */
  function ValidateAsset(a: RawAsset): (r: Result<ExtractedAsset>)
    ensures r.Success? <==>
      && a.name.Given?
      && a.assetType.Given? && ParseAssetType(a.assetType.value).Some?
      && a.shares.Given?
      && !a.currency.Null?
      && !a.confidence.Null?
    ensures r.Success? ==>
      && r.value.name == a.name.value
      && AssetTypeName(r.value.assetType) == a.assetType.value
      && r.value.shares == a.shares.value
      && r.value.currency == (if a.currency.Given? then a.currency.value else DefaultCurrency)
      && r.value.confidence == (if a.confidence.Given? then a.confidence.value else DefaultAssetConfidence)
      && r.value.ticker == OptionalField(a.ticker)
      && r.value.market == OptionalField(a.market)
      && r.value.currentPrice == OptionalField(a.currentPrice)
      && r.value.totalValue == OptionalField(a.totalValue)
  {
    if !a.name.Given? then Failure(ValidationError("ExtractedAsset", "name"))
    else if !a.assetType.Given? || ParseAssetType(a.assetType.value).None? then
      Failure(ValidationError("ExtractedAsset", "type"))
    else if !a.shares.Given? then Failure(ValidationError("ExtractedAsset", "shares"))
    else
      match (DefaultedField(a.currency, DefaultCurrency, "ExtractedAsset", "currency"),
             DefaultedField(a.confidence, DefaultAssetConfidence, "ExtractedAsset", "confidence"))
      case (Success(currency), Success(confidence)) =>
        Success(ExtractedAsset(
          a.name.value, ParseAssetType(a.assetType.value).value, OptionalField(a.ticker),
          a.shares.value, currency, OptionalField(a.market),
          OptionalField(a.currentPrice), OptionalField(a.totalValue), confidence))
      case (Failure(e), _) => Failure(e)
      case (_, Failure(e)) => Failure(e)
  }

  /** An asset written out with every key present (`None` as `null`). */
  function AssetToRaw(e: ExtractedAsset): RawAsset {
    RawAsset(
      Given(e.name), Given(AssetTypeName(e.assetType)), FieldOf(e.ticker), Given(e.shares),
      Given(e.currency), FieldOf(e.market), FieldOf(e.currentPrice), FieldOf(e.totalValue),
      Given(e.confidence))
  }

  function FieldOf<T>(o: Option<T>): Field<T> {
    if o.Some? then Given(o.value) else Null
  }

  /** Validation reads back every asset written out in full. */
  lemma ValidateAssetRoundTrip(e: ExtractedAsset)
    ensures ValidateAsset(AssetToRaw(e)) == Success(e)
  {
    AssetTypeRoundTrip(e.assetType);
  }

  /** The results of a list comprehension that stops at the first element
      whose validation fails: the first failure, or every value in order. */
  function Collect<T>(rs: seq<Result<T>>): (r: Result<seq<T>>)
    ensures r.Success? <==> forall i :: 0 <= i < |rs| ==> rs[i].Success?
    ensures r.Success? ==> |r.value| == |rs| && forall i :: 0 <= i < |rs| ==> Success(r.value[i]) == rs[i]
    ensures r.Failure? ==>
      exists i :: 0 <= i < |rs| && rs[i] == Failure(r.error) && forall j :: 0 <= j < i ==> rs[j].Success?
  {
    if rs == [] then Success([])
    else
      match rs[0]
      case Failure(e) => Failure(e)
      case Success(first) =>
        match Collect(rs[1..])
        case Failure(e) =>
          var j :| 0 <= j < |rs[1..]| && rs[1..][j] == Failure(e) && forall k :: 0 <= k < j ==> rs[1..][k].Success?;
          assert rs[1 + j] == rs[1..][j];
          assert forall k :: 1 <= k < 1 + j ==> rs[k] == rs[1..][k - 1];
          Failure(e)
        case Success(rest) =>
          assert forall i :: 1 <= i < |rs| ==> rs[i] == rs[1..][i - 1];
          Success([first] + rest)
  }

  /** `[ExtractedAsset(**a) for a in assets]`: the list comprehension stops at
      the first asset that fails validation, so one invalid asset fails the
      whole list, with the error of the first invalid asset. */
  function ValidateAssets(raws: seq<RawAsset>): (r: Result<seq<ExtractedAsset>>)
    ensures r.Success? <==> forall i :: 0 <= i < |raws| ==> ValidateAsset(raws[i]).Success?
    ensures r.Success? ==>
      && |r.value| == |raws|
      && forall i :: 0 <= i < |raws| ==> Success(r.value[i]) == ValidateAsset(raws[i])
    ensures r.Failure? ==>
      exists i :: 0 <= i < |raws| && ValidateAsset(raws[i]) == Failure(r.error)
        && forall j :: 0 <= j < i ==> ValidateAsset(raws[j]).Success?
  {
    var rs := seq(|raws|, i requires 0 <= i < |raws| => ValidateAsset(raws[i]));
    assert forall i :: 0 <= i < |raws| ==> rs[i] == ValidateAsset(raws[i]);
    Collect(rs)
  }

  /** `SourceInfo(**source_info)`: every field is optional. */
  function ValidateSourceInfo(s: RawSourceInfo): (r: SourceInfo)
    ensures r.broker.Some? <==> s.broker.Given?
    ensures r.statementDate.Some? <==> s.statementDate.Given?
    ensures r.accountType.Some? <==> s.accountType.Given?
    ensures s.broker.Given? ==> r.broker == Some(s.broker.value)
    ensures s.statementDate.Given? ==> r.statementDate == Some(s.statementDate.value)
    ensures s.accountType.Given? ==> r.accountType == Some(s.accountType.value)
  {
    SourceInfo(OptionalField(s.broker), OptionalField(s.statementDate), OptionalField(s.accountType))
  }

  /** The overall confidence `analyze_import` uses when the reply has
      none. */
  const DefaultReplyConfidence: real := 0.8

  /** The `TypeError` message of `SourceInfo(**None)`: Python names the
      callable by its qualified name, from schemas/import_schema.py. */
  const SourceInfoNotMapping: string :=
    "schemas.import_schema.SourceInfo() argument after ** must be a mapping, not NoneType"

  /** The `TypeError` message of iterating over `None`. */
  const NoneNotIterable: string := "'NoneType' object is not iterable"

  /** Building the `ImportResponse` from the reply's keys: `assets` and
      `warnings` default to empty lists, `source_info` to an empty
      `SourceInfo`, `confidence` to 0.8; a `null` under any of the four keys
      fails, and so does any single invalid asset. */
  function BuildResponse(reply: RawReply): (r: Result<ImportResponse>)
    ensures r.Success? <==>
      && !reply.sourceInfo.Null?
      && !reply.warnings.Null?
      && !reply.confidence.Null?
      && !reply.assets.Null?
      && (reply.assets.Given? ==> ValidateAssets(reply.assets.value).Success?)
    ensures r.Success? ==>
      && (reply.assets.Absent? ==> r.value.assets == [])
      && (reply.assets.Given? ==> Success(r.value.assets) == ValidateAssets(reply.assets.value))
      && (reply.sourceInfo.Absent? ==> r.value.sourceInfo == EmptySourceInfo)
      && (reply.sourceInfo.Given? ==> r.value.sourceInfo == ValidateSourceInfo(reply.sourceInfo.value))
      && r.value.warnings == (if reply.warnings.Given? then reply.warnings.value else [])
      && r.value.confidence == (if reply.confidence.Given? then reply.confidence.value else DefaultReplyConfidence)
    ensures reply.assets.Null? ==> r == Failure(NoneNotIterable)
    ensures reply.assets.Given? && ValidateAssets(reply.assets.value).Failure? ==>
      r == Failure(ValidateAssets(reply.assets.value).error)
    ensures
      && reply.sourceInfo.Null?
      && !reply.assets.Null?
      && (reply.assets.Given? ==> ValidateAssets(reply.assets.value).Success?)
      ==> r == Failure(SourceInfoNotMapping)
  {
    var assets := match reply.assets
      case Absent => Success([])
      case Null => Failure(NoneNotIterable)
      case Given(raws) => ValidateAssets(raws);
    if assets.Failure? then Failure(assets.error)
    else if reply.sourceInfo.Null? then Failure(SourceInfoNotMapping)
    else
      var info := if reply.sourceInfo.Given? then ValidateSourceInfo(reply.sourceInfo.value) else EmptySourceInfo;
      match (DefaultedField(reply.warnings, [], "ImportResponse", "warnings"),
             DefaultedField(reply.confidence, DefaultReplyConfidence, "ImportResponse", "confidence"))
      case (Success(warnings), Success(confidence)) =>
        Success(ImportResponse(assets.value, info, warnings, confidence))
      case (Failure(e), _) => Failure(e)
      case (_, Failure(e)) => Failure(e)
  }

  /** A response written out as a reply with every key present. */
  function ResponseToRaw(resp: ImportResponse): RawReply {
    RawReply(
      Given(seq(|resp.assets|, i requires 0 <= i < |resp.assets| => AssetToRaw(resp.assets[i]))),
      Given(RawSourceInfo(FieldOf(resp.sourceInfo.broker), FieldOf(resp.sourceInfo.statementDate),
                          FieldOf(resp.sourceInfo.accountType))),
      Given(resp.warnings),
      Given(resp.confidence))
  }

  /** Building reads back every response written out in full. */
  lemma BuildResponseRoundTrip(resp: ImportResponse)
    ensures BuildResponse(ResponseToRaw(resp)) == Success(resp)
  {
    var raws := ResponseToRaw(resp).assets.value;
    forall i | 0 <= i < |raws| ensures ValidateAsset(raws[i]) == Success(resp.assets[i]) {
      ValidateAssetRoundTrip(resp.assets[i]);
    }
    var v := ValidateAssets(raws);
    assert v.value == resp.assets;
  }

  /** A reply that omits `confidence` gets 0.8, even when it holds no assets
      at all. */
  lemma MissingConfidenceIsPointEight()
    ensures BuildResponse(RawReply(Absent, Absent, Absent, Absent))
            == Success(ImportResponse([], EmptySourceInfo, [], 0.8))
  {
  }

  // ---------------------------------------------------------------------
  // analyze_import
  // ---------------------------------------------------------------------

  /** Documents whose stripped text is shorter than this are refused. */
  const MinChars: nat := 50
  /** Longer documents are cut to this many characters. */
  const MaxChars: nat := 15000
  /** The ceiling on the confidence of a truncated document's result. */
  const TruncatedConfidenceCap: real := 0.7

  const EmptyDocumentWarning: string := "Document appears to be empty or contains very little text"
  const TruncationWarning: string := "Document was truncated due to size. Some assets may be missing."
  const AnalysisFailedPrefix: string := "Analysis failed: "

  /** The result of every failed analysis: no assets, an empty `SourceInfo`,
      the one warning, and confidence 0. */
  function FailedAnalysis(warning: string): (r: ImportResponse)
    ensures r.assets == [] && r.sourceInfo == EmptySourceInfo
    ensures r.warnings == [warning] && r.confidence == 0.0
  {
    ImportResponse([], EmptySourceInfo, [warning], 0.0)
  }

  /** The test that refuses a document: empty, or fewer than 50 characters
      once surrounding whitespace is stripped. */
  predicate TooShort(text: string) {
    text == [] || |Strip(text)| < MinChars
  }

  /** The emptiness test is subsumed by the length test: a document is
      refused exactly when its stripped text is shorter than 50 characters,
      in particular whenever it is blank. */
  lemma TooShortIsStrippedLength(text: string)
    ensures TooShort(text) <==> |Strip(text)| < MinChars
    ensures (forall i :: 0 <= i < |text| ==> IsSpace(text[i])) ==> TooShort(text)
  {
  }

  /** What the `try` block computes from the model's reply before the
      truncation adjustment: the reply (or the error the call raised), then
      the JSON recovered from it, then the parsed dictionary's keys, then the
      validated response. */
  function ReadReply<J>(reply: Result<string>, parse: string -> Option<J>, decode: J -> Result<RawReply>)
    : (r: Result<ImportResponse>)
    ensures r.Success? ==>
      && reply.Success?
      && ExtractJsonFromResponse(reply.value, parse).Success?
      && decode(ExtractJsonFromResponse(reply.value, parse).value).Success?
      && r == BuildResponse(decode(ExtractJsonFromResponse(reply.value, parse).value).value)
    ensures reply.Failure? ==> r == Failure(reply.error)
    ensures reply.Success? && ExtractJsonFromResponse(reply.value, parse).Failure? ==>
      r == Failure(ParseError(reply.value))
    ensures reply.Success? && ExtractJsonFromResponse(reply.value, parse).Success? ==>
      var parsed := ExtractJsonFromResponse(reply.value, parse).value;
      && (decode(parsed).Failure? ==> r == Failure(decode(parsed).error))
      && (decode(parsed).Success? ==> r == BuildResponse(decode(parsed).value))
  {
    if reply.Failure? then Failure(reply.error)
    else
      match ExtractJsonFromResponse(reply.value, parse)
      case Failure(e) => Failure(e)
      case Success(parsed) =>
        match decode(parsed)
        case Failure(e) => Failure(e)
        case Success(raw) => BuildResponse(raw)
  }

  /** `analyze_import`. `extracted` is what `extract_text` returned, or the
      message of the `ValueError` it raised; `llm` maps the document text
      sent to the model to its reply (or the error the call raised). The
      out-parameter `sent` is the text handed to the model, `None` when the
      model is not called. */
  method AnalyzeImport<J>(
    extracted: Result<string>,
    llm: string -> Result<string>,
    parse: string -> Option<J>,
    decode: J -> Result<RawReply>)
    returns (response: ImportResponse, sent: Option<string>)
    // An extraction error or a too-short document: the failure result, no model call.
    ensures extracted.Failure? ==> sent.None? && response == FailedAnalysis(extracted.error)
    ensures extracted.Success? && TooShort(extracted.value) ==>
      sent.None? && response == FailedAnalysis(EmptyDocumentWarning)
    // Otherwise the model sees the first 15000 characters, or the whole text.
    ensures extracted.Success? && !TooShort(extracted.value) ==> sent.Some?
    ensures sent.Some? ==>
      && extracted.Success?
      && (|extracted.value| > MaxChars ==> sent.value == extracted.value[..MaxChars])
      && (|extracted.value| <= MaxChars ==> sent.value == extracted.value)
    // Any failure after the call: the failure result with the error quoted.
    ensures sent.Some? && ReadReply(llm(sent.value), parse, decode).Failure? ==>
      response == FailedAnalysis(AnalysisFailedPrefix + ReadReply(llm(sent.value), parse, decode).error)
    // Success: the validated reply; when truncated, one warning appended and
    // the confidence capped, never raised.
    ensures sent.Some? && ReadReply(llm(sent.value), parse, decode).Success? ==>
      var built := ReadReply(llm(sent.value), parse, decode).value;
      && response.assets == built.assets
      && response.sourceInfo == built.sourceInfo
      && (|extracted.value| <= MaxChars ==> response == built)
      && (|extracted.value| > MaxChars ==>
            && response.warnings == built.warnings + [TruncationWarning]
            && response.confidence == MinReal(built.confidence, TruncatedConfidenceCap)
            && response.confidence <= TruncatedConfidenceCap
            && response.confidence <= built.confidence)
    // Every result without a model call, and every failure, is uniform.
    ensures sent.None? ==>
      && response.assets == [] && response.sourceInfo == EmptySourceInfo
      && |response.warnings| == 1 && response.confidence == 0.0
  {
    sent := None;
    if extracted.Failure? {
      response := FailedAnalysis(extracted.error);
      return;
    }
    var documentText := extracted.value;
    if documentText == [] || |Strip(documentText)| < MinChars {
      response := FailedAnalysis(EmptyDocumentWarning);
      return;
    }

    var truncated := false;
    if |documentText| > MaxChars {
      documentText := documentText[..MaxChars];
      truncated := true;
    }

    sent := Some(documentText);
    var outcome := ReadReply(llm(documentText), parse, decode);
    if outcome.Failure? {
      response := FailedAnalysis(AnalysisFailedPrefix + outcome.error);
      return;
    }
    response := outcome.value;
    if truncated {
      response := response.(warnings := response.warnings + [TruncationWarning]);
      response := response.(confidence := MinReal(response.confidence, TruncatedConfidenceCap));
    }
  }

  /** Python's `min(a, b)` on two numbers. */
  function MinReal(a: real, b: real): (r: real)
    ensures r <= a && r <= b && (r == a || r == b)
  {
    if b < a then b else a
  }
}
