/**
  Cost observations: what the Controller builds from an operator's request, and the
  contract the exporter checks again before it writes a row.
 */
module Costs {
  import opened Wrappers
  import opened Texts
  import Prices

  const VERSION := "cost-observation-v1"
  const EVIDENCE := "operator-declared-unverified"
  const RECEIPT_TIME := "controller-receipt-time"
  const SUPPLIED_TIME := "operator-supplied"
  const PUBLIC_URL := "provider-public-url"
  const MAX_SOURCE_BYTES := 512

  const UNITS := {"hour", "month", "year", "one-time"}
  const COMMITMENTS := {"on-demand", "spot", "reserved", "contract", "unknown"}
  const SOURCE_TYPES := {PUBLIC_URL, "operator-reference"}
  const REQUIRED := {"amount", "currency", "billing_unit", "commitment", "tax_included", "source_type", "source_reference"}
  const ALLOWED := REQUIRED + {"target_id", "observed_at"}

  /** A JSON value; of numbers, lists and objects only their text and truth matter. */
  datatype Value = Null | Flag(value: bool) | Text(text: string) | Other(shown: string, truthy: bool)

  type Request = map<string, Value>

  function Get(r: Request, name: string): Value { if name in r then r[name] else Null }

  /** `str(value or default)`. */
  function Str(v: Value, default: string): (s: string)
    ensures v in {Null, Flag(false), Text("")} ==> s == default
    ensures v.Text? && v.text != "" ==> s == v.text
  {
    match v
    case Null => default
    case Flag(b) => if b then "True" else default
    case Text(s) => if s != "" then s else default
    case Other(shown, truthy) => if truthy then shown else default
  }

  datatype CostError =
    | UnknownFields | MissingFields | BadCurrency | BadUnit | BadCommitment | BadSourceType | BadTax
    | BadTime | BadTarget | BadAmount | BadReference | WrongVersion | Inconsistent

  datatype Policy = Policy(immutable: bool, ratingInput: bool, performanceCalculated: bool, termsInferred: bool)

  datatype Price = Price(amount: string, currency: string, unit: string, commitment: string, tax: Value)

  datatype Observation = Observation(
    version: string, observedAt: string, observedAtSource: string, target: Option<nat>, price: Price,
    sourceType: string, reference: string, evidence: string, policy: Policy)

  /** `str.upper`, the URL check, the time normaliser and the identity of the selected target. */
  datatype World = World(
    upper: string -> string, https: string -> bool, observed: Value -> Option<string>, target: Option<nat>)

  // ---- Texts and amounts --------------------------------------------------------------

  predicate Control(c: char) { c as int < 32 || c as int == 127 }

  /** Length in UTF-8. */
  function Bytes(s: string): nat {
    if s == "" then 0 else
      var n := s[0] as int;
      (if n < 0x80 then 1 else if n < 0x800 then 2 else if n < 0x10000 then 3 else 4) + Bytes(s[1..])
  }

  /** The UTF-8 bytes of one character: a lead byte and continuation bytes of six bits each. */
  function Utf8(c: char): seq<int> {
    var n := c as int;
    if n < 0x80 then [n]
    else if n < 0x800 then [0xC0 + n / 0x40, 0x80 + n % 0x40]
    else if n < 0x10000 then [0xE0 + n / 0x40 / 0x40, 0x80 + n / 0x40 % 0x40, 0x80 + n % 0x40]
    else [0xF0 + n / 0x40 / 0x40 / 0x40, 0x80 + n / 0x40 / 0x40 % 0x40, 0x80 + n / 0x40 % 0x40, 0x80 + n % 0x40]
  }

  /** The value the bytes carry. */
  function Decoded(bytes: seq<int>): int {
    match |bytes|
    case 1 => bytes[0]
    case 2 => Joined(bytes[0] - 0xC0, bytes[1])
    case 3 => Joined(Joined(bytes[0] - 0xE0, bytes[1]), bytes[2])
    case 4 => Joined(Joined(Joined(bytes[0] - 0xF0, bytes[1]), bytes[2]), bytes[3])
    case _ => -1
  }

  function Joined(high: int, byte: int): int { 0x40 * high + (byte - 0x80) }

  lemma JoinsBack(n: nat)
    ensures Joined(n / 0x40, 0x80 + n % 0x40) == n
  {
  }

  /** Encoding keeps the character: the bytes read back as its value. */
  lemma Utf8ReadsBack(c: char)
    ensures Decoded(Utf8(c)) == c as int
  {
    var n := c as int;
    JoinsBack(n);
    JoinsBack(n / 0x40);
    JoinsBack(n / 0x40 / 0x40);
    hide Joined;
  }

  /** The length counted is that of the encoded text. */
  lemma BytesAreUtf8(s: string, c: char)
    ensures Bytes("") == 0 && Bytes([c] + s) == |Utf8(c)| + Bytes(s)
  {
    assert ([c] + s)[1..] == s;
  }

  /** `_bounded_text`. */
  function BoundedText(v: Value, limit: nat): Option<string> {
    if !v.Text? || exists i :: 0 <= i < |v.text| && Control(v.text[i]) then None
    else
      var normalized := Spaced(Words(v.text));
      if normalized == "" || Bytes(normalized) > limit then None else Some(normalized)
  }

  /** `_source_reference`. */
  function SourceReference(w: World, sourceType: string, v: Value): Option<string> {
    match BoundedText(v, MAX_SOURCE_BYTES)
    case None => None
    case Some(reference) =>
      if sourceType == PUBLIC_URL && ((exists i :: 0 <= i < |reference| && Space(reference[i])) || !w.https(reference))
      then None else Some(reference)
  }

  function Amount(v: Value): Option<string> {
    if !v.Text? then None else match Prices.PriceAmount(v.text) case Ok(a) => Some(a) case Err(_) => None
  }

  predicate CurrencyCode(s: string) { |s| == 3 && forall i :: 0 <= i < 3 ==> 'A' <= s[i] <= 'Z' }

  // ---- build_cost_observation -------------------------------------------------------------

  predicate NoTime(v: Value) { v.Null? || v == Text("") }

  function Build(w: World, r: Request): Result<Observation, CostError> {
    var currency := w.upper(Strip(Str(Get(r, "currency"), "")));
    var unit := Strip(Str(Get(r, "billing_unit"), ""));
    var commitment := Strip(Str(Get(r, "commitment"), "unknown"));
    var sourceType := Strip(Str(Get(r, "source_type"), ""));
    var tax := Get(r, "tax_included");
    if !(r.Keys <= ALLOWED) then Err(UnknownFields)
    else if !(REQUIRED <= r.Keys) then Err(MissingFields)
    else if !CurrencyCode(currency) then Err(BadCurrency)
    else if unit !in UNITS then Err(BadUnit)
    else if commitment !in COMMITMENTS then Err(BadCommitment)
    else if sourceType !in SOURCE_TYPES then Err(BadSourceType)
    else if !tax.Null? && !tax.Flag? then Err(BadTax)
    else Assemble(w, r, currency, unit, commitment, sourceType)
  }

  /** The dictionary at the end, whose parts can still refuse. */
  function Assemble(w: World, r: Request, currency: string, unit: string, commitment: string, sourceType: string)
    : Result<Observation, CostError>
  {
    var time, amount := w.observed(Get(r, "observed_at")), Amount(Get(r, "amount"));
    var reference := SourceReference(w, sourceType, Get(r, "source_reference"));
    if time.None? then Err(BadTime)
    else if w.target.None? then Err(BadTarget)
    else if amount.None? then Err(BadAmount)
    else if reference.None? then Err(BadReference)
    else Ok(Observation(
      VERSION, time.value, if NoTime(Get(r, "observed_at")) then RECEIPT_TIME else SUPPLIED_TIME, w.target,
      Price(amount.value, currency, unit, commitment, Get(r, "tax_included")),
      sourceType, reference.value, EVIDENCE, Policy(true, false, false, false)))
  }

  // ---- cost_observation_csv -----------------------------------------------------------------

  /** The check of one observation before its row is written. */
  function ExportError(w: World, o: Observation): Option<CostError> {
    if o.version != VERSION then Some(WrongVersion)
    else if o.target.None? || o.evidence != EVIDENCE || o.observedAtSource !in {RECEIPT_TIME, SUPPLIED_TIME}
    then Some(Inconsistent)
    else if Amount(Text(o.price.amount)).None? then Some(BadAmount)
    else if Amount(Text(o.price.amount)).value != o.price.amount || !CurrencyCode(o.price.currency)
         || o.price.unit !in UNITS || o.price.commitment !in COMMITMENTS
         || (!o.price.tax.Null? && !o.price.tax.Flag?) || o.sourceType !in SOURCE_TYPES
    then Some(Inconsistent)
    else if SourceReference(w, o.sourceType, Text(o.reference)).None? then Some(BadReference)
    else if SourceReference(w, o.sourceType, Text(o.reference)).value != o.reference
         || o.policy != Policy(true, false, false, false)
    then Some(Inconsistent)
    else None
  }

  // ---- What the builder accepts the exporter accepts ------------------------------------------

  /** A reference is stored unchanged exactly when it is tidy, bounded and free of control characters. */
  lemma ReferenceIsNormalIff(s: string, limit: nat)
    ensures BoundedText(Text(s), limit) == Some(s)
       <==> Tidy(s) && Bytes(s) <= limit && forall i :: 0 <= i < |s| ==> !Control(s[i])
  {
    hide Words, Spaced, Tidy, Bytes;
    SplitJoinIff(s);
    TidyIsNonEmpty(s);
  }

  lemma TidyIsNonEmpty(s: string)
    ensures Tidy(s) ==> s != ""
  {
  }

  lemma BoundedTextTwice(v: Value, limit: nat)
    requires BoundedText(v, limit).Some?
    ensures BoundedText(Text(BoundedText(v, limit).value), limit) == BoundedText(v, limit)
  {
    hide Words, Spaced, Bytes;
    var text := BoundedText(v, limit).value;
    SplitJoinTwice(v.text);
    forall i | 0 <= i < |text| ensures !Control(text[i]) {
      if Control(text[i]) {
        SpacedFrom(Words(v.text), text[i]);
        WordsFrom(v.text, text[i]);
      }
    }
  }

  lemma AmountTwice(v: Value)
    requires Amount(v).Some?
    ensures Amount(Text(Amount(v).value)) == Amount(v)
  {
    Prices.PriceIsCanonical(v.text, v.text);
  }

  /** Whatever the request: what is built passes the exporter's contract. */
  lemma BuiltIsExportable(w: World, r: Request)
    requires Build(w, r).Ok?
    ensures ExportError(w, Build(w, r).value).None?
  {
    hide Amount, BoundedText, Strip, CurrencyCode;
    AmountTwice(Get(r, "amount"));
    BoundedTextTwice(Get(r, "source_reference"), MAX_SOURCE_BYTES);
  }

  /** What an observation that was built says, in terms of the request. */
  lemma BuiltSays(w: World, r: Request)
    requires Build(w, r).Ok?
    ensures var o := Build(w, r).value;
      && r.Keys <= ALLOWED && REQUIRED <= r.Keys
      && o.version == "cost-observation-v1" && o.evidence == "operator-declared-unverified"
      && o.policy == Policy(true, false, false, false) && o.target == w.target && o.target.Some?
      && w.observed(Get(r, "observed_at")) == Some(o.observedAt)
      && o.observedAtSource == (if Get(r, "observed_at") in {Null, Text("")} then "controller-receipt-time" else "operator-supplied")
      && |o.price.currency| == 3 && (forall i :: 0 <= i < 3 ==> 'A' <= o.price.currency[i] <= 'Z')
      && o.price.unit in {"hour", "month", "year", "one-time"}
      && o.price.commitment in {"on-demand", "spot", "reserved", "contract", "unknown"}
      && o.price.tax == Get(r, "tax_included") && (o.price.tax.Null? || o.price.tax.Flag?)
      && o.sourceType in {"provider-public-url", "operator-reference"}
      && Tidy(o.reference) && Bytes(o.reference) <= 512
      && (o.sourceType == "provider-public-url" ==> w.https(o.reference) && ' ' !in o.reference)
  {
    hide Amount, Strip, Str, Words, Spaced, Tidy, Bytes;
    var v := Get(r, "source_reference");
    ReferenceIsTidy(v);
    SpaceIsBlank();
  }

  lemma SpaceIsBlank()
    ensures Space(' ')
  {
  }

  lemma ReferenceIsTidy(v: Value)
    requires BoundedText(v, MAX_SOURCE_BYTES).Some?
    ensures var text := BoundedText(v, MAX_SOURCE_BYTES).value; Tidy(text) && Bytes(text) <= 512 && v.Text? && text == Spaced(Words(v.text))
  {
    WordsAreWords(v.text);
    if Words(v.text) != [] { SpacedIsTidy(Words(v.text)); }
  }

  /** The stored amount is the requested one. */
  lemma BuiltAmount(w: World, r: Request)
    requires Build(w, r).Ok?
    ensures var o, v := Build(w, r).value, Get(r, "amount");
      && v.Text? && Prices.Accepted(v.text) && Prices.Accepted(o.price.amount)
      && Prices.Millionths(o.price.amount) == Prices.Millionths(v.text) > 0
  {
    Prices.PriceIsCanonical(Get(r, "amount").text, Get(r, "amount").text);
    hide Prices.PriceAmount, SourceReference, Strip, Str;
  }

  /** A request whose parts are in order is never refused. */
  lemma BuiltWhenInOrder(w: World, r: Request)
    requires REQUIRED <= r.Keys <= ALLOWED && w.target.Some? && w.observed(Get(r, "observed_at")).Some?
    requires CurrencyCode(w.upper(Strip(Str(Get(r, "currency"), ""))))
    requires Strip(Str(Get(r, "billing_unit"), "")) in {"hour", "month", "year", "one-time"}
    requires Strip(Str(Get(r, "commitment"), "unknown")) in {"on-demand", "spot", "reserved", "contract", "unknown"}
    requires Strip(Str(Get(r, "source_type"), "")) in {"provider-public-url", "operator-reference"}
    requires Get(r, "tax_included").Null? || Get(r, "tax_included").Flag?
    requires Get(r, "amount").Text? && Prices.Accepted(Get(r, "amount").text) && Prices.Millionths(Get(r, "amount").text) > 0
    requires SourceReference(w, Strip(Str(Get(r, "source_type"), "")), Get(r, "source_reference")).Some?
    ensures Build(w, r).Ok?
  {
    hide SourceReference, Strip, Str, Get;
  }

  // ---- and nothing else ------------------------------------------------------------------------

  /** The request that repeats an observation. */
  function RequestOf(o: Observation): Request {
    var r := map["amount" := Text(o.price.amount), "currency" := Text(o.price.currency), "billing_unit" := Text(o.price.unit),
                 "commitment" := Text(o.price.commitment), "tax_included" := o.price.tax,
                 "source_type" := Text(o.sourceType), "source_reference" := Text(o.reference)];
    if o.observedAtSource == RECEIPT_TIME then r else r["observed_at" := Text(o.observedAt)]
  }

  /** The time and the target are those the Controller would fill in, and upper-case codes stay as they are. */
  ghost predicate Repeatable(w: World, o: Observation) {
    && o.target.Some? && w.target == o.target && o.observedAt != ""
    && w.observed(if o.observedAtSource == RECEIPT_TIME then Null else Text(o.observedAt)) == Some(o.observedAt)
    && forall code :: CurrencyCode(code) ==> w.upper(code) == code
  }

  predicate Solid(s: string) { s != "" && !Space(s[0]) && !Space(s[|s| - 1]) }

  lemma SolidIsStripped(s: string, default: string)
    requires Solid(s)
    ensures Strip(Str(Text(s), default)) == s
  {
  }

  lemma PolicyWordsAreSolid(s: string)
    requires s in UNITS || s in COMMITMENTS || s in SOURCE_TYPES || CurrencyCode(s)
    ensures Solid(s)
  {
  }

  /** The exporter accepts exactly the observations some request builds. */
  lemma ExportableIffBuilt(w: World, o: Observation)
    requires Repeatable(w, o)
    ensures ExportError(w, o).None? <==> exists r :: Build(w, r) == Ok(o)
  {
    hide Build, ExportError;
    if ExportError(w, o).None? {
      ExportableIsBuilt(w, o);
    }
    forall r | Build(w, r) == Ok(o) ensures ExportError(w, o).None? {
      BuiltIsExportable(w, r);
    }
  }

  lemma RepeatedFields(o: Observation)
    ensures var r := RequestOf(o);
      && REQUIRED <= r.Keys <= ALLOWED
      && Get(r, "amount") == Text(o.price.amount) && Get(r, "currency") == Text(o.price.currency)
      && Get(r, "billing_unit") == Text(o.price.unit) && Get(r, "commitment") == Text(o.price.commitment)
      && Get(r, "tax_included") == o.price.tax && Get(r, "source_type") == Text(o.sourceType)
      && Get(r, "source_reference") == Text(o.reference)
      && Get(r, "observed_at") == if o.observedAtSource == RECEIPT_TIME then Null else Text(o.observedAt)
  {
  }

  lemma ExportableIsBuilt(w: World, o: Observation)
    requires Repeatable(w, o) && ExportError(w, o).None?
    ensures Build(w, RequestOf(o)) == Ok(o)
  {
    hide Amount, SourceReference, Strip, Solid, Get, Str, RequestOf;
    RepeatedFields(o);
    PolicyWordsAreSolid(o.price.currency);
    PolicyWordsAreSolid(o.price.unit);
    PolicyWordsAreSolid(o.price.commitment);
    PolicyWordsAreSolid(o.sourceType);
    SolidIsStripped(o.price.currency, "");
    SolidIsStripped(o.price.unit, "");
    SolidIsStripped(o.price.commitment, "unknown");
    SolidIsStripped(o.sourceType, "");
  }
}
