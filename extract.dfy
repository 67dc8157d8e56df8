/** The extraction pipeline around the language-model call: the port lookup,
    the selection of the JSON text in a reply, the repair of the decoded
    dictionary, the retrying client, and the per-email and batch drivers.

    The model service, the JSON decoder and `time.sleep` are outside: the
    service is a function from (model, prompt) to its replies to the three
    attempts, the decoder a function from text to an optional dictionary, and
    every pause is recorded as an event instead of being slept. */
module Extract {
  import opened Wrappers
  import opened Json
  import opened Builtins
  import opened Schemas
  import opened Prompts

  // ---------------------------------------------------------------------------
  // Configuration
  // ---------------------------------------------------------------------------

  const MaxRetries := 3
  const InitialRetryDelay: real := 2.0
  const MaxRetryDelay: real := 30.0
  /** The pause after an error that is not a rate limit. */
  const OtherErrorDelay: real := 1.0
  /** The pause between two emails of a batch. */
  const BatchPause: real := 0.5

  /** `GROQ_MODEL` and `GROQ_MODEL_FALLBACK`. */
  datatype Model = Primary | Fallback

  /** What one attempt of a completion request came back with: the reply text,
      an error whose message mentions "rate_limit" or "429", or any other
      error. */
  datatype Attempt = Ok(text: string) | RateLimited | OtherError

  /** The service's answers to the attempts of one request, in order. */
  type Replies = s: seq<Attempt> | |s| == MaxRetries witness [OtherError, OtherError, OtherError]

  /** What the extractor does that takes time: a completion request, or a pause. */
  datatype Event = Request(model: Model) | Sleep(seconds: real)

  // ---------------------------------------------------------------------------
  // Port lookup
  // ---------------------------------------------------------------------------

  /** The position of the first reference entry with `code`. */
  function FirstIndex(refs: seq<PortReference>, code: string): (i: nat)
    requires code in Codes(refs)
    ensures i < |refs| && refs[i].code == code
    ensures forall j :: 0 <= j < i ==> refs[j].code != code
  {
    assert Codes(refs) == [refs[0].code] + Codes(refs[1..]);
    if refs[0].code == code then 0 else 1 + FirstIndex(refs[1..], code)
  }

  // ---------------------------------------------------------------------------
  // Selecting the JSON text of a reply
  // ---------------------------------------------------------------------------

  const Fence := "```"

  /** `w` occurs in `s` at position `k`. */
  predicate HasAt(s: string, k: nat, w: string) {
    k + |w| <= |s| && s[k..k + |w|] == w
  }

  /** The first position at or after `k` that is not whitespace (`\s*`). */
  function SkipSpaces(s: string, k: nat): (j: nat)
    requires k <= |s|
    ensures k <= j <= |s|
    ensures forall m :: k <= m < j ==> IsSpace(s[m])
    ensures j == |s| || !IsSpace(s[j])
    decreases |s| - k
  {
    if k < |s| && IsSpace(s[k]) then SkipSpaces(s, k + 1) else k
  }

  /** Where the pattern ```` ```(?:json)?\s*\{ ```` puts its `{` when it is
      tried at position `i`, if it matches there. */
  function FenceOpen(s: string, i: nat): Option<nat> {
    if !HasAt(s, i, Fence) then None
    else
      var afterTag := if HasAt(s, i + 3, "json") then i + 7 else i + 3;
      var b := SkipSpaces(s, afterTag);
      if b < |s| && s[b] == '{' then Some(b) else None
  }

  /** The pattern `\}\s*```` ` matches at position `e`. */
  predicate FenceCloseAt(s: string, e: nat) {
    e < |s| && s[e] == '}' && HasAt(s, SkipSpaces(s, e + 1), Fence)
  }

  /** The fenced-block pattern matches from position `i` with its group
      ending at the `}` in position `e`. */
  predicate FenceMatch(s: string, i: nat, e: nat) {
    FenceOpen(s, i).Some? && FenceOpen(s, i).value < e && FenceCloseAt(s, e)
  }

  /** The first closing position at or after `e`. */
  function FirstClose(s: string, e: nat): (r: Option<nat>)
    ensures r.Some? ==> e <= r.value && FenceCloseAt(s, r.value)
    ensures r.Some? ==> forall m :: e <= m < r.value ==> !FenceCloseAt(s, m)
    ensures r.None? ==> forall m :: e <= m ==> !FenceCloseAt(s, m)
    decreases |s| - e
  {
    if e >= |s| then None
    else if FenceCloseAt(s, e) then Some(e)
    else FirstClose(s, e + 1)
  }

  /** Where `re.search` finds the fenced-block pattern, trying positions from
      `i` on: the leftmost start, and the shortest group (`.*?` is lazy). */
  datatype Span = Span(start: nat, open: nat, close: nat)

  function FindFence(s: string, i: nat): (r: Option<Span>)
    ensures r.Some? ==>
      && i <= r.value.start
      && FenceMatch(s, r.value.start, r.value.close)
      && FenceOpen(s, r.value.start) == Some(r.value.open)
      && r.value.open < r.value.close < |s|
      && s[r.value.open] == '{' && s[r.value.close] == '}'
      && (forall j: nat, e: nat :: i <= j < r.value.start ==> !FenceMatch(s, j, e))
      && (forall e: nat :: e < r.value.close ==> !FenceMatch(s, r.value.start, e))
    ensures r.None? ==> forall j: nat, e: nat :: i <= j ==> !FenceMatch(s, j, e)
    decreases |s| - i
  {
    if i >= |s| then None
    else
      var open := FenceOpen(s, i);
      var close := if open.Some? then FirstClose(s, open.value + 1) else None;
      if open.Some? && close.Some? then Some(Span(i, open.value, close.value))
      else FindFence(s, i + 1)
  }

  /** Group 1 of the fenced-block pattern: the `{...}` between the fences. */
  function FencedJson(s: string): (r: Option<string>)
    ensures r.Some? ==> |r.value| >= 2 && r.value[0] == '{' && r.value[|r.value| - 1] == '}'
  {
    var span := FindFence(s, 0);
    if span.Some? then Some(s[span.value.open..span.value.close + 1]) else None
  }

  /** The first position of `c` at or after `k`. */
  function FirstOf(s: string, c: char, k: nat): (r: Option<nat>)
    ensures r.Some? ==> k <= r.value < |s| && s[r.value] == c
    ensures r.Some? ==> forall m :: k <= m < r.value ==> s[m] != c
    ensures r.None? ==> forall m :: k <= m < |s| ==> s[m] != c
    decreases |s| - k
  {
    if k >= |s| then None
    else if s[k] == c then Some(k)
    else FirstOf(s, c, k + 1)
  }

  /** The last position of `c` before `k`. */
  function LastOf(s: string, c: char, k: nat): (r: Option<nat>)
    requires k <= |s|
    ensures r.Some? ==> r.value < k && s[r.value] == c
    ensures r.Some? ==> forall m :: r.value < m < k ==> s[m] != c
    ensures r.None? ==> forall m :: 0 <= m < k ==> s[m] != c
  {
    if k == 0 then None
    else if s[k - 1] == c then Some(k - 1)
    else LastOf(s, c, k - 1)
  }

  /** The match of `\{.*\}` (with `.` matching newlines): from the first `{`
      to the last `}`, when that `}` comes after the `{`. */
  function RawJson(s: string): (r: Option<string>)
    ensures r.Some? <==> exists b, e :: 0 <= b < e < |s| && s[b] == '{' && s[e] == '}'
    ensures r.Some? ==> exists b, e ::
      && 0 <= b < e < |s| && r.value == s[b..e + 1]
      && s[b] == '{' && s[e] == '}'
      && (forall m :: 0 <= m < b ==> s[m] != '{')
      && (forall m :: e < m < |s| ==> s[m] != '}')
  {
    var b := FirstOf(s, '{', 0);
    var e := LastOf(s, '}', |s|);
    if b.Some? && e.Some? && b.value < e.value then Some(s[b.value..e.value + 1]) else None
  }

  /** `_extract_json_from_response`: the fenced block when there is one (and
      then only it), otherwise the raw brace span, decoded; `None` when
      neither pattern matches or the chosen text does not decode. */
  function ExtractJsonFromResponse(responseText: string, decode: string -> Option<JsonObject>): (r: Option<JsonObject>)
    ensures FencedJson(responseText).Some? ==> r == decode(FencedJson(responseText).value)
    ensures FencedJson(responseText).None? && RawJson(responseText).Some? ==>
              r == decode(RawJson(responseText).value)
    ensures FencedJson(responseText).None? && RawJson(responseText).None? ==> r.None?
  {
    var fenced := FencedJson(responseText);
    if fenced.Some? then decode(fenced.value)
    else
      var raw := RawJson(responseText);
      if raw.Some? then decode(raw.value) else None
  }

  // ---------------------------------------------------------------------------
  // Repair of the decoded dictionary
  // ---------------------------------------------------------------------------

  /** `raw.get(code_key) in port_lookup`: only a string can be a key. */
  predicate KnownCode(d: JsonObject, codeKey: string, lookup: map<string, string>) {
    Get(d, codeKey).Str? && Get(d, codeKey).s in lookup
  }

  /** What repair promises for one code/name pair. */
  predicate PortNameRepaired(raw: JsonObject, r: JsonObject, codeKey: string, nameKey: string,
                             lookup: map<string, string>)
  {
    && (KnownCode(raw, codeKey, lookup) ==>
          nameKey in r && r[nameKey] == Str(lookup[Get(raw, codeKey).s]))
    && (Get(raw, codeKey).Null? ==> nameKey in r && r[nameKey] == Null)
    && (!KnownCode(raw, codeKey, lookup) && !Get(raw, codeKey).Null? ==>
          (nameKey in r <==> nameKey in raw) && Get(r, nameKey) == Get(raw, nameKey))
  }

  function SetCanonicalName(d: JsonObject, codeKey: string, nameKey: string,
                            lookup: map<string, string>): JsonObject
  {
    if KnownCode(d, codeKey, lookup) then d[nameKey := Str(lookup[d[codeKey].s])] else d
  }

  function NullNameOfNullCode(d: JsonObject, codeKey: string, nameKey: string): JsonObject {
    if Get(d, codeKey).Null? then d[nameKey := Null] else d
  }

  /** `_validate_and_fix_extraction` on the dictionary's contents. */
  function Repaired(raw: JsonObject, emailId: string, lookup: map<string, string>): (r: JsonObject)
    ensures PortNameRepaired(raw, r, OriginCodeKey, OriginNameKey, lookup)
    ensures PortNameRepaired(raw, r, DestinationCodeKey, DestinationNameKey, lookup)
    ensures IdKey in r && r[IdKey] == Str(emailId)
    ensures forall k :: k != IdKey && k != OriginNameKey && k != DestinationNameKey ==>
      (k in r <==> k in raw) && Get(r, k) == Get(raw, k)
  {
    var d1 := SetCanonicalName(raw, OriginCodeKey, OriginNameKey, lookup);
    var d2 := SetCanonicalName(d1, DestinationCodeKey, DestinationNameKey, lookup);
    var d3 := NullNameOfNullCode(d2, OriginCodeKey, OriginNameKey);
    var d4 := NullNameOfNullCode(d3, DestinationCodeKey, DestinationNameKey);
    d4[IdKey := Str(emailId)]
  }

  /** A decoded dictionary that the repair step edits in place. */
  class JsonDict {
    var entries: JsonObject

    constructor(entries: JsonObject)
      ensures this.entries == entries
    {
      this.entries := entries;
    }
  }

  /** Repair is idempotent: repairing a repaired dictionary changes nothing. */
  lemma RepairIdempotent(raw: JsonObject, emailId: string, lookup: map<string, string>)
    ensures Repaired(Repaired(raw, emailId, lookup), emailId, lookup) == Repaired(raw, emailId, lookup)
  {
    var once := Repaired(raw, emailId, lookup);
    var twice := Repaired(once, emailId, lookup);
    assert forall k :: k in twice <==> k in once;
    forall k | k in twice ensures twice[k] == once[k] {
      assert Get(twice, k) == Get(once, k);
    }
  }

  /** The canonical name replaces whatever name the model gave: origin code
      HKHKG with name "HK" becomes "Hong Kong". */
  lemma RepairExample()
    ensures var raw := map[OriginCodeKey := Str("HKHKG"), OriginNameKey := Str("HK")];
      Repaired(raw, "E1", map["HKHKG" := "Hong Kong"])[OriginNameKey] == Str("Hong Kong")
  {
    var raw := map[OriginCodeKey := Str("HKHKG"), OriginNameKey := Str("HK")];
    assert KnownCode(raw, OriginCodeKey, map["HKHKG" := "Hong Kong"]);
  }

  // ---------------------------------------------------------------------------
  // Records
  // ---------------------------------------------------------------------------

  /** The port names of a record agree with its codes: the canonical name when
      the code is known, no name when there is no code. */
  predicate PortNamesConsistent(r: ShipmentExtraction, lookup: map<string, string>) {
    && (r.originPortCode.Some? && r.originPortCode.value in lookup ==>
          r.originPortName == Some(lookup[r.originPortCode.value]))
    && (r.originPortCode.None? ==> r.originPortName.None?)
    && (r.destinationPortCode.Some? && r.destinationPortCode.value in lookup ==>
          r.destinationPortName == Some(lookup[r.destinationPortCode.value]))
    && (r.destinationPortCode.None? ==> r.destinationPortName.None?)
  }

  /** The record that stands for an email whose extraction failed: every
      optional field `None` and `is_dangerous` false, which is what the schema
      defaults give. */
  function Placeholder(id: string): (r: ShipmentExtraction)
    ensures Construct(map[IdKey := Str(id)]) == Success(r)
  {
    FieldDefaults(id);
    ShipmentExtraction(id, None, None, None, None, None, None, None, None, false)
  }

  /** A dictionary whose names already agree with its codes, for both pairs. */
  predicate NamesAgree(d: JsonObject, codeKey: string, nameKey: string, lookup: map<string, string>) {
    && (KnownCode(d, codeKey, lookup) ==> nameKey in d && d[nameKey] == Str(lookup[Get(d, codeKey).s]))
    && (Get(d, codeKey).Null? ==> nameKey in d && d[nameKey] == Null)
  }

  /** Repair leaves alone a dictionary that already carries the id and whose
      names already agree with its codes. */
  lemma RepairFixedPoint(d: JsonObject, emailId: string, lookup: map<string, string>)
    requires IdKey in d && d[IdKey] == Str(emailId)
    requires NamesAgree(d, OriginCodeKey, OriginNameKey, lookup)
    requires NamesAgree(d, DestinationCodeKey, DestinationNameKey, lookup)
    ensures Repaired(d, emailId, lookup) == d
  {
    var fixed := Repaired(d, emailId, lookup);
    assert forall k :: k in fixed <==> k in d;
    forall k | k in fixed ensures fixed[k] == d[k] {
      assert Get(fixed, k) == Get(d, k);
    }
  }

  /** Repairing the dictionary of a consistent record changes nothing. */
  lemma RepairRecordFixedPoint(r: ShipmentExtraction, lookup: map<string, string>)
    requires PortNamesConsistent(r, lookup)
    ensures Repaired(ToDict(r), r.id, lookup) == ToDict(r)
  {
    ToDictEntries(r);
    RepairFixedPoint(ToDict(r), r.id, lookup);
  }

  // ---------------------------------------------------------------------------
  // The retry schedule
  // ---------------------------------------------------------------------------

  /** The position of the first successful attempt, or `|replies|`. */
  function FirstOkIndex(replies: seq<Attempt>): (k: nat)
    ensures k <= |replies|
    ensures k < |replies| ==> replies[k].Ok?
    ensures forall j :: 0 <= j < k ==> !replies[j].Ok?
  {
    if replies == [] then 0
    else if replies[0].Ok? then 0
    else 1 + FirstOkIndex(replies[1..])
  }

  /** The text of the first successful attempt, if one succeeds. */
  function FirstOk(replies: Replies): Option<string> {
    var k := FirstOkIndex(replies);
    if k < MaxRetries then Some(replies[k].text) else None
  }

  /** How many attempts a request makes: up to the first success, at most
      `MaxRetries`. */
  function AttemptsMade(replies: Replies): nat {
    var k := FirstOkIndex(replies);
    if k < MaxRetries then k + 1 else MaxRetries
  }

  function CountRateLimited(s: seq<Attempt>): nat {
    if s == [] then 0
    else CountRateLimited(s[..|s| - 1]) + (if s[|s| - 1].RateLimited? then 1 else 0)
  }

  function Pow2(k: nat): real {
    if k == 0 then 1.0 else 2.0 * Pow2(k - 1)
  }

  function Min(a: real, b: real): real {
    if a < b then a else b
  }

  /** The delay before the retry that follows the `k`-th rate limit (counting
      from zero): doubling from `InitialRetryDelay`, capped at `MaxRetryDelay`. */
  function RateLimitDelay(k: nat): real {
    Min(InitialRetryDelay * Pow2(k), MaxRetryDelay)
  }

  /** The pause after failed attempt `i`. */
  function SleepAfter(replies: Replies, i: nat): real
    requires i < MaxRetries
  {
    if replies[i].RateLimited? then RateLimitDelay(CountRateLimited(replies[..i])) else OtherErrorDelay
  }

  /** What one request does: an attempt, then a pause and a new attempt after
      each failure but the last. */
  function RetryTrace(model: Model, replies: Replies): seq<Event> {
    var n := 2 * AttemptsMade(replies) - 1;
    seq(n, k requires 0 <= k < n =>
      if k % 2 == 0 then Request(model) else Sleep(SleepAfter(replies, k / 2)))
  }

  /** The first `n` attempts of a request that fail, each followed by its
      pause. */
  function RetryPrefix(model: Model, replies: Replies, n: nat): (t: seq<Event>)
    requires n <= MaxRetries
    ensures |t| == 2 * n
  {
    seq(2 * n, k requires 0 <= k < 2 * n =>
      if k % 2 == 0 then Request(model) else Sleep(SleepAfter(replies, k / 2)))
  }

  lemma RetryPrefixStep(model: Model, replies: Replies, n: nat)
    requires n < MaxRetries
    ensures RetryPrefix(model, replies, n + 1)
      == RetryPrefix(model, replies, n) + [Request(model), Sleep(SleepAfter(replies, n))]
  {
  }

  /** A request is its failed attempts with their pauses, then one last
      attempt. */
  lemma RetryTraceOfPrefix(model: Model, replies: Replies)
    ensures RetryTrace(model, replies)
      == RetryPrefix(model, replies, AttemptsMade(replies) - 1) + [Request(model)]
  {
  }

  /** The source's update of the delay, `min(delay * 2, MAX_RETRY_DELAY)`,
      walks through the closed form `RateLimitDelay`. */
  lemma RateLimitDelayStep(k: nat)
    ensures RateLimitDelay(0) == InitialRetryDelay
    ensures Min(RateLimitDelay(k) * 2.0, MaxRetryDelay) == RateLimitDelay(k + 1)
  {
    assert Pow2(k + 1) == 2.0 * Pow2(k);
  }

  /** At most `MaxRetries` attempts are made; a request stops at its first
      success, whose text it returns, and returns `None` only after
      `MaxRetries` failures. */
  lemma RetryAttempts(replies: Replies)
    ensures 1 <= AttemptsMade(replies) <= MaxRetries
    ensures FirstOk(replies).Some? ==>
      replies[AttemptsMade(replies) - 1] == Ok(FirstOk(replies).value)
    ensures forall j :: 0 <= j < AttemptsMade(replies) - 1 ==> !replies[j].Ok?
    ensures FirstOk(replies).None? <==>
      AttemptsMade(replies) == MaxRetries && forall j :: 0 <= j < MaxRetries ==> !replies[j].Ok?
  {
  }

  /** Pauses come only between attempts: the trace starts and ends with an
      attempt and alternates, so there is one pause fewer than attempts and
      none after the last attempt. Every pause is one second or a rate-limit
      delay between `InitialRetryDelay` and `MaxRetryDelay`. */
  lemma {:induction false} RetryTraceShape(model: Model, replies: Replies)
    ensures |RetryTrace(model, replies)| == 2 * AttemptsMade(replies) - 1
    ensures RetryTrace(model, replies)[0] == Request(model)
    ensures RetryTrace(model, replies)[|RetryTrace(model, replies)| - 1] == Request(model)
    ensures forall k :: 0 <= k < |RetryTrace(model, replies)| ==>
      (RetryTrace(model, replies)[k].Request? <==> k % 2 == 0)
    ensures forall k :: 0 <= k < |RetryTrace(model, replies)| && RetryTrace(model, replies)[k].Request? ==>
      RetryTrace(model, replies)[k].model == model
    ensures forall k :: 0 <= k < |RetryTrace(model, replies)| && RetryTrace(model, replies)[k].Sleep? ==>
      var d := RetryTrace(model, replies)[k].seconds;
      d == OtherErrorDelay || InitialRetryDelay <= d <= MaxRetryDelay
  {
    var t := RetryTrace(model, replies);
    forall k | 0 <= k < |t| && t[k].Sleep?
      ensures t[k].seconds == OtherErrorDelay || InitialRetryDelay <= t[k].seconds <= MaxRetryDelay
    {
      var i := k / 2;
      if replies[i].RateLimited? {
        Pow2AtLeastOne(CountRateLimited(replies[..i]));
      }
    }
  }

  lemma {:induction false} Pow2AtLeastOne(k: nat)
    ensures Pow2(k) >= 1.0
  {
    if k > 0 {
      Pow2AtLeastOne(k - 1);
    }
  }

  /** The number of between-email pauses in a trace. */
  function CountPauses(t: seq<Event>): nat {
    if t == [] then 0
    else CountPauses(t[..|t| - 1]) + (if t[|t| - 1] == Sleep(BatchPause) then 1 else 0)
  }

  lemma {:induction false} CountPausesConcat(a: seq<Event>, b: seq<Event>)
    ensures CountPauses(a + b) == CountPauses(a) + CountPauses(b)
    decreases |b|
  {
    if b != [] {
      assert (a + b)[..|a + b| - 1] == a + b[..|b| - 1];
      CountPausesConcat(a, b[..|b| - 1]);
    } else {
      assert a + b == a;
    }
  }

  lemma {:induction false} NoPauseIn(t: seq<Event>)
    requires forall k :: 0 <= k < |t| ==> t[k] != Sleep(BatchPause)
    ensures CountPauses(t) == 0
  {
    if t != [] {
      NoPauseIn(t[..|t| - 1]);
    }
  }

  /** The trace of a batch after its first `k` emails, given each email's
      trace: the traces in order, with a pause after every email but the
      last of the batch. */
  function BatchOf(traces: seq<seq<Event>>, k: nat): seq<Event>
    requires k <= |traces|
  {
    if k == 0 then []
    else BatchOf(traces, k - 1) + traces[k - 1] + (if k < |traces| then [Sleep(BatchPause)] else [])
  }

  lemma BatchOfStep(traces: seq<seq<Event>>, i: nat)
    requires i < |traces|
    ensures BatchOf(traces, i + 1)
      == BatchOf(traces, i) + traces[i] + (if i + 1 < |traces| then [Sleep(BatchPause)] else [])
  {
  }

  /** When no email's own trace holds the between-email pause, a batch of `n`
      emails pauses `n - 1` times. */
  lemma {:induction false} BatchPauses(traces: seq<seq<Event>>, k: nat)
    requires k <= |traces|
    requires forall i :: 0 <= i < |traces| ==> CountPauses(traces[i]) == 0
    ensures CountPauses(BatchOf(traces, k)) == if k == |traces| && k > 0 then k - 1 else k
  {
    if k > 0 {
      BatchPauses(traces, k - 1);
      var tail: seq<Event> := if k < |traces| then [Sleep(BatchPause)] else [];
      PausesAroundEmail(BatchOf(traces, k - 1), traces[k - 1], tail);
    }
  }

  lemma PausesAroundEmail(before: seq<Event>, email: seq<Event>, tail: seq<Event>)
    requires CountPauses(email) == 0
    requires tail == [] || tail == [Sleep(BatchPause)]
    ensures CountPauses(before + email + tail) == CountPauses(before) + |tail|
  {
    CountPausesConcat(before, email);
    CountPausesConcat(before + email, tail);
    if tail != [] {
      assert tail[..0] == [];
    }
  }

  // ---------------------------------------------------------------------------
  // The extractor
  // ---------------------------------------------------------------------------

  class EmailExtractor {
    /** The completion service: its replies to the attempts of a request with
        the given model and prompt. */
    const service: (Model, string) -> Replies
    /** `json.loads`, restricted to texts that decode to an object. */
    const decodeJson: string -> Option<JsonObject>
    const portLookup: map<string, string>
    const portReferenceText: string
    const promptTemplate: seq<Piece>

    constructor(service: (Model, string) -> Replies, decodeJson: string -> Option<JsonObject>,
                portReferences: seq<PortReference>, promptTemplate: seq<Piece>)
      ensures this.service == service && this.decodeJson == decodeJson
      ensures this.promptTemplate == promptTemplate
      ensures portReferenceText == PortReferenceText(portReferences, DefaultMaxPorts)
      ensures forall c :: c in portLookup <==> c in Codes(portReferences)
      ensures forall c :: c in portLookup ==> portLookup[c] == portReferences[FirstIndex(portReferences, c)].name
    {
      var text := GetPortReferenceText(portReferences, DefaultMaxPorts);
      var lookup := BuildPortLookup(portReferences);
      this.service := service;
      this.decodeJson := decodeJson;
      this.portReferenceText := text;
      this.promptTemplate := promptTemplate;
      this.portLookup := lookup;
    }

    /** `_build_port_lookup`: every code of the reference list maps to the name
        of its first entry; later entries with the same code are ignored. */
    static method BuildPortLookup(portReferences: seq<PortReference>) returns (lookup: map<string, string>)
      ensures forall c :: c in lookup <==> c in Codes(portReferences)
      ensures forall c :: c in lookup ==> lookup[c] == portReferences[FirstIndex(portReferences, c)].name
    {
      lookup := map[];
      for i := 0 to |portReferences|
        invariant forall c :: c in lookup <==> c in Codes(portReferences[..i])
        invariant forall c :: c in lookup ==>
          (c in Codes(portReferences) && lookup[c] == portReferences[FirstIndex(portReferences, c)].name)
      {
        var code := portReferences[i].code;
        assert Codes(portReferences[..i + 1]) == Codes(portReferences[..i]) + [code];
        assert Codes(portReferences)[i] == code;
        if code !in lookup {
          forall j | 0 <= j < i ensures portReferences[j].code != code {
            assert Codes(portReferences[..i])[j] == portReferences[j].code;
          }
          assert FirstIndex(portReferences, code) == i;
          lookup := lookup[code := portReferences[i].name];
        }
      }
      assert portReferences[..|portReferences|] == portReferences;
    }

    /** `_call_llm_with_retry`: the text of the first successful attempt, or
        `None` once `MaxRetries` attempts have failed, with the pauses taken in
        between. */
    method CallLlmWithRetry(prompt: string, model: Model) returns (text: Option<string>, trace: seq<Event>)
      ensures text == FirstOk(service(model, prompt))
      ensures trace == RetryTrace(model, service(model, prompt))
    {
      var replies := service(model, prompt);
      var retryDelay := InitialRetryDelay;
      text := None;
      trace := [];
      var attempt := 0;
      while attempt < MaxRetries
        invariant attempt < MaxRetries
        invariant text.None?
        invariant forall j :: 0 <= j < attempt ==> !replies[j].Ok?
        invariant retryDelay == RateLimitDelay(CountRateLimited(replies[..attempt]))
        invariant trace == RetryPrefix(model, replies, attempt)
      {
        trace := trace + [Request(model)];
        var reply := replies[attempt];
        if reply.Ok? {
          text := Some(reply.text);
          assert FirstOkIndex(replies) == attempt;
          RetryTraceOfPrefix(model, replies);
          return;
        }
        assert replies[..attempt + 1] == replies[..attempt] + [reply];
        if reply.RateLimited? && attempt < MaxRetries - 1 {
          trace := trace + [Sleep(retryDelay)];
          RetryPrefixStep(model, replies, attempt);
          RateLimitDelayStep(CountRateLimited(replies[..attempt]));
          retryDelay := Min(retryDelay * 2.0, MaxRetryDelay);
        } else if attempt < MaxRetries - 1 {
          trace := trace + [Sleep(OtherErrorDelay)];
          RetryPrefixStep(model, replies, attempt);
        } else {
          assert FirstOkIndex(replies) == MaxRetries;
          RetryTraceOfPrefix(model, replies);
          return;
        }
        attempt := attempt + 1;
      }
    }

    /** `_validate_and_fix_extraction`: edits the dictionary in place and
        hands the same dictionary back. */
    method ValidateAndFix(rawData: JsonDict, emailId: string) returns (fixedData: JsonDict)
      modifies rawData
      ensures fixedData == rawData
      ensures rawData.entries == Repaired(old(rawData.entries), emailId, portLookup)
    {
      if KnownCode(rawData.entries, OriginCodeKey, portLookup) {
        rawData.entries := rawData.entries[OriginNameKey := Str(portLookup[rawData.entries[OriginCodeKey].s])];
      }
      if KnownCode(rawData.entries, DestinationCodeKey, portLookup) {
        rawData.entries := rawData.entries[DestinationNameKey := Str(portLookup[rawData.entries[DestinationCodeKey].s])];
      }
      if Get(rawData.entries, OriginCodeKey).Null? {
        rawData.entries := rawData.entries[OriginNameKey := Null];
      }
      if Get(rawData.entries, DestinationCodeKey).Null? {
        rawData.entries := rawData.entries[DestinationNameKey := Null];
      }
      rawData.entries := rawData.entries[IdKey := Str(emailId)];
      fixedData := rawData;
    }

    function PromptFor(email: EmailInput): string {
      FormatPrompt(promptTemplate, email.subject, email.body, portReferenceText)
    }

    /** The reply text an email ends up with: the primary model's, or the
        fallback model's when the primary gives none. */
    function ResponseFor(email: EmailInput): Option<string> {
      var primary := FirstOk(service(Primary, PromptFor(email)));
      if primary.Some? then primary else FirstOk(service(Fallback, PromptFor(email)))
    }

    /** The attempts and pauses spent on one email. */
    function EmailTrace(email: EmailInput): seq<Event> {
      var prompt := PromptFor(email);
      RetryTrace(Primary, service(Primary, prompt))
        + (if FirstOk(service(Primary, prompt)).Some? then [] else RetryTrace(Fallback, service(Fallback, prompt)))
    }

    /** The record made from a reply: the repaired and validated extraction, or
        the placeholder when there is no reply, no JSON in it, or the
        dictionary is refused. */
    function Finish(emailId: string, response: Option<string>): ShipmentExtraction {
      if response.None? then Placeholder(emailId)
      else
        var extracted := ExtractJsonFromResponse(response.value, decodeJson);
        if extracted.None? then Placeholder(emailId)
        else
          var built := Construct(Repaired(extracted.value, emailId, portLookup));
          if built.Failure? then Placeholder(emailId) else built.value
    }

    function ExtractionFor(email: EmailInput): ShipmentExtraction {
      Finish(email.id, ResponseFor(email))
    }

    /** Whatever the reply, the record carries the email's id, its port names
        agree with its codes, and it is validated. */
    lemma FinishedRecord(emailId: string, response: Option<string>)
      ensures Finish(emailId, response).id == emailId
      ensures PortNamesConsistent(Finish(emailId, response), portLookup)
      ensures Validated(Finish(emailId, response))
    {
    }

    /** `extract_single_email`. */
    method ExtractSingleEmail(email: EmailInput) returns (extraction: ShipmentExtraction, trace: seq<Event>)
      ensures extraction == ExtractionFor(email)
      ensures trace == EmailTrace(email)
      ensures extraction.id == email.id
      ensures PortNamesConsistent(extraction, portLookup) && Validated(extraction)
    {
      FinishedRecord(email.id, ResponseFor(email));
      var prompt := FormatPrompt(promptTemplate, email.subject, email.body, portReferenceText);

      // Try the primary model first, then the fallback.
      var responseText, primaryTrace := CallLlmWithRetry(prompt, Primary);
      trace := primaryTrace;
      if responseText.None? {
        var fallbackTrace;
        responseText, fallbackTrace := CallLlmWithRetry(prompt, Fallback);
        trace := trace + fallbackTrace;
      }

      if responseText.None? {
        extraction := Placeholder(email.id);
        return;
      }

      var extractedData := ExtractJsonFromResponse(responseText.value, decodeJson);
      if extractedData.None? {
        extraction := Placeholder(email.id);
        return;
      }

      var rawData := new JsonDict(extractedData.value);
      var fixedData := ValidateAndFix(rawData, email.id);
      var built := Construct(fixedData.entries);
      if built.Failure? {
        extraction := Placeholder(email.id);
      } else {
        extraction := built.value;
      }
    }

    /** The trace of each email, in order. */
    function EmailTraces(emails: seq<EmailInput>): (traces: seq<seq<Event>>)
      ensures |traces| == |emails|
    {
      seq(|emails|, i requires 0 <= i < |emails| => EmailTrace(emails[i]))
    }

    /** The records of a list of emails, one per email, in order. */
    function Extractions(emails: seq<EmailInput>): (records: seq<ShipmentExtraction>)
      ensures |records| == |emails|
      decreases |emails|
    {
      if emails == [] then []
      else Extractions(emails[..|emails| - 1]) + [ExtractionFor(emails[|emails| - 1])]
    }

    /** One more email appends its record. */
    lemma ExtractionsStep(emails: seq<EmailInput>, i: nat)
      requires i < |emails|
      ensures Extractions(emails[..i + 1]) == Extractions(emails[..i]) + [ExtractionFor(emails[i])]
    {
      assert emails[..i + 1][..i] == emails[..i];
    }

    /** Spelled out at one position: email `i` gets its own record. */
    lemma {:induction false} ExtractionAt(emails: seq<EmailInput>, i: nat)
      requires i < |emails|
      ensures Extractions(emails)[i] == ExtractionFor(emails[i])
      decreases |emails|
    {
      var n := |emails| - 1;
      if i < n {
        ExtractionAt(emails[..n], i);
      }
    }

    /** Every record of a batch carries the id of its email. */
    lemma ExtractionIds(emails: seq<EmailInput>)
      ensures forall i :: 0 <= i < |emails| ==> Extractions(emails)[i].id == emails[i].id
    {
      forall i | 0 <= i < |emails| ensures Extractions(emails)[i].id == emails[i].id {
        ExtractionAt(emails, i);
        FinishedRecord(emails[i].id, ResponseFor(emails[i]));
      }
    }

    method ExtractBatch(emails: seq<EmailInput>) returns (extractions: seq<ShipmentExtraction>, trace: seq<Event>)
      ensures extractions == Extractions(emails)
      ensures forall i :: 0 <= i < |emails| ==> extractions[i].id == emails[i].id
      ensures trace == BatchOf(EmailTraces(emails), |emails|)
    {
      extractions := [];
      trace := [];
      var total := |emails|;
      for i := 0 to total
        invariant extractions == Extractions(emails[..i])
        invariant trace == BatchOf(EmailTraces(emails), i)
      {
        var extraction, emailTrace := ExtractSingleEmail(emails[i]);
        ExtractionsStep(emails, i);
        assert EmailTraces(emails)[i] == emailTrace;
        BatchOfStep(EmailTraces(emails), i);
        extractions := extractions + [extraction];
        trace := trace + emailTrace;
        if i + 1 < total {
          trace := trace + [Sleep(BatchPause)];
        }
      }
      assert emails[..total] == emails;
      ExtractionIds(emails);
    }

    // -------------------------------------------------------------------------
    // Properties of the orchestration
    // -------------------------------------------------------------------------

    /** The fallback model is asked exactly when the primary model gives no
        reply. */
    lemma FallbackOnlyAfterPrimaryFails(email: EmailInput)
      ensures Request(Fallback) in EmailTrace(email) <==> FirstOk(service(Primary, PromptFor(email))).None?
    {
      var prompt := PromptFor(email);
      var primary := RetryTrace(Primary, service(Primary, prompt));
      RetryTraceShape(Primary, service(Primary, prompt));
      RetryTraceShape(Fallback, service(Fallback, prompt));
      assert Request(Fallback) !in primary;
      if FirstOk(service(Primary, prompt)).None? {
        assert EmailTrace(email)[|primary|] == Request(Fallback);
      }
    }

    /** A reply that holds no JSON, or whose dictionary is refused, gives the
        placeholder, and the fallback model is not asked. */
    lemma BadReplyIsFinal(email: EmailInput)
      requires FirstOk(service(Primary, PromptFor(email))).Some?
      requires var extracted := ExtractJsonFromResponse(FirstOk(service(Primary, PromptFor(email))).value, decodeJson);
        extracted.None? || Construct(Repaired(extracted.value, email.id, portLookup)).Failure?
      ensures ExtractionFor(email) == Placeholder(email.id)
      ensures Request(Fallback) !in EmailTrace(email)
    {
      FallbackOnlyAfterPrimaryFails(email);
    }

    /** With no reply from either model the email still gets a record: the
        placeholder. */
    lemma NoReplyGivesPlaceholder(email: EmailInput)
      requires FirstOk(service(Primary, PromptFor(email))).None?
      requires FirstOk(service(Fallback, PromptFor(email))).None?
      ensures ExtractionFor(email) == Placeholder(email.id)
      ensures |EmailTrace(email)| == 2 * (2 * MaxRetries - 1)
    {
      RetryTraceShape(Primary, service(Primary, PromptFor(email)));
      RetryTraceShape(Fallback, service(Fallback, PromptFor(email)));
    }

    /** A batch of `n` emails pauses `n - 1` times between emails: the retry
        pauses are never as short as the between-email pause. */
    lemma BatchPausesOf(emails: seq<EmailInput>)
      requires emails != []
      ensures CountPauses(BatchOf(EmailTraces(emails), |emails|)) == |emails| - 1
    {
      var traces := EmailTraces(emails);
      forall i | 0 <= i < |traces| ensures CountPauses(traces[i]) == 0 {
        EmailTraceHasNoPause(emails[i]);
      }
      BatchPauses(traces, |emails|);
    }

    lemma EmailTraceHasNoPause(email: EmailInput)
      ensures CountPauses(EmailTrace(email)) == 0
    {
      var prompt := PromptFor(email);
      RetryTraceShape(Primary, service(Primary, prompt));
      RetryTraceShape(Fallback, service(Fallback, prompt));
      NoPauseIn(EmailTrace(email));
    }
  }
}
