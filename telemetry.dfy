/**
 * The telemetry handler as a function of the stored documents: decoding the
 * nine-token payload, the unchanged-snapshot short circuit, the first-match
 * hazard chain and the counter increment.
 */
module Telemetry {
  import opened Wrappers
  import opened Documents
  import Tokens
  import Floats

  const UPDATED_AT := "updated_at"

  /** The payload's positional fields, in token order. */
  const FIELD_NAMES: seq<string> :=
    ["obstacle1", "obstacle2", "obstacle3", "obstacle4", "water", "fall", "emergency", "power", "stop"]

  const FIELD_KEYS: set<string> := set i | 0 <= i < |FIELD_NAMES| :: FIELD_NAMES[i]

  /** No two fields share a name, and none is called `updated_at`. */
  lemma FieldNamesDistinct()
    ensures forall i, j :: 0 <= i < j < |FIELD_NAMES| ==> FIELD_NAMES[i] != FIELD_NAMES[j]
    ensures UPDATED_AT !in FIELD_KEYS
  {
  }

  /** A decoded telemetry record. */
  datatype Parameters = Parameters(
    obstacle1: bool, obstacle2: bool, obstacle3: bool, obstacle4: bool,
    water: bool, fall: bool, emergency: bool, power: bool, stop: bool)
  {
    /** The fields in token order. */
    function Flags(): (fs: seq<bool>)
      ensures |fs| == |FIELD_NAMES|
    {
      [obstacle1, obstacle2, obstacle3, obstacle4, water, fall, emergency, power, stop]
    }

    /** The `parameters` dict the handler builds from the record. */
    function ToDocument(): (d: Document)
      ensures d.Keys == FIELD_KEYS
      ensures forall i :: 0 <= i < |FIELD_NAMES| ==> FIELD_NAMES[i] in d && d[FIELD_NAMES[i]] == BoolV(Flags()[i])
    {
      FieldNamesDistinct();
      map i | 0 <= i < |FIELD_NAMES| :: FIELD_NAMES[i] := BoolV(Flags()[i])
    }
  }

  /** Why a payload did not decode: `IndexError` or `ValueError` at a token position. */
  datatype DecodeError = MissingToken(position: nat) | NotNumeric(position: nat, token: string)

  /** Whether the token at position i is there and is a number. */
  predicate Readable(tokens: seq<string>, i: nat) {
    i < |tokens| && Floats.ParseFloat(tokens[i]).Some?
  }

  /** `bool(float(tokens[i]))` of a readable token. */
  function TokenFlag(tokens: seq<string>, i: nat): bool
    requires Readable(tokens, i)
  {
    Floats.Truthy(Floats.ParseFloat(tokens[i]).value)
  }

  /** `bool(float(data[i]))`: `IndexError` past the end, `ValueError` on a token that is not a number. */
  function ReadFlag(tokens: seq<string>, i: nat): (r: Result<bool, DecodeError>)
    ensures r.Success? <==> Readable(tokens, i)
    ensures r.Success? ==> r.value == TokenFlag(tokens, i)
    ensures r.Failure? ==> r.error.position == i && (r.error.MissingToken? <==> i >= |tokens|)
    ensures r.Failure? && r.error.NotNumeric? ==> r.error.token == tokens[i]
  {
    if i >= |tokens| then Failure(MissingToken(i))
    else if !Readable(tokens, i) then Failure(NotNumeric(i, tokens[i]))
    else Success(TokenFlag(tokens, i))
  }

  /**
   * The handler's assignments from position i to the last field, in order: the
   * first position that is missing or not a number is the error; otherwise
   * flag j is true exactly when token j is a non-zero number.
   */
  function ReadFlags(tokens: seq<string>, i: nat): (r: Result<seq<bool>, DecodeError>)
    requires i <= |FIELD_NAMES|
    ensures r.Success? <==> forall j :: i <= j < |FIELD_NAMES| ==> Readable(tokens, j)
    ensures r.Success? ==> |r.value| == |FIELD_NAMES| - i
    ensures r.Success? ==> forall j :: i <= j < |FIELD_NAMES| ==> r.value[j - i] == TokenFlag(tokens, j)
    ensures r.Failure? ==>
      && i <= r.error.position < |FIELD_NAMES|
      && !Readable(tokens, r.error.position)
      && (forall j :: i <= j < r.error.position ==> Readable(tokens, j))
      && (r.error.MissingToken? <==> r.error.position >= |tokens|)
      && (r.error.NotNumeric? ==> r.error.token == tokens[r.error.position])
    decreases |FIELD_NAMES| - i
  {
    if i == |FIELD_NAMES| then Success([])
    else
      var flag :- ReadFlag(tokens, i);
      var rest :- ReadFlags(tokens, i + 1);
      Success([flag] + rest)
  }

  /** The record whose fields, in token order, are `fs`. */
  function FromFlags(fs: seq<bool>): (p: Parameters)
    requires |fs| == |FIELD_NAMES|
    ensures p.Flags() == fs
  {
    Parameters(fs[0], fs[1], fs[2], fs[3], fs[4], fs[5], fs[6], fs[7], fs[8])
  }

  /**
   * The nine assignments of the handler: decoding succeeds exactly when the
   * first nine tokens are numbers, and field i is then true exactly when token i
   * is non-zero. Tokens after the ninth are ignored.
   */
  function DecodeTokens(tokens: seq<string>): (r: Result<Parameters, DecodeError>)
    ensures r.Success? <==> |tokens| >= |FIELD_NAMES| && forall i :: 0 <= i < |FIELD_NAMES| ==> Readable(tokens, i)
    ensures r.Success? ==> forall i :: 0 <= i < |FIELD_NAMES| ==> r.value.Flags()[i] == TokenFlag(tokens, i)
  {
    var flags :- ReadFlags(tokens, 0);
    assert Readable(tokens, |FIELD_NAMES| - 1);
    Success(FromFlags(flags))
  }

  /** Decoding a payload: `payload.split()`, then the nine fields, as `DecodeTokens` states. */
  function Decode(payload: string): Result<Parameters, DecodeError>
  {
    DecodeTokens(Tokens.Split(payload))
  }

  /** A record's fields as the tokens `1` and `0`. */
  function BitTokens(p: Parameters): (tokens: seq<string>)
    ensures |tokens| == |FIELD_NAMES|
    ensures forall i :: 0 <= i < |FIELD_NAMES| ==> tokens[i] == if p.Flags()[i] then "1" else "0"
  {
    seq(|FIELD_NAMES|, i requires 0 <= i < |FIELD_NAMES| => if p.Flags()[i] then "1" else "0")
  }

  /** The payload a device sends for a record: `1` or `0` per field, space separated. */
  function Encode(p: Parameters): string {
    Tokens.Join(BitTokens(p))
  }

  /** A hazard, in the order the handler tests them. */
  datatype Hazard = Obstacle | Water | Fall | Emergency {

    /** The key of the hazard's counter in the "total" document. */
    function CounterKey(): string {
      match this
      case Obstacle => "obstacle"
      case Water => "water"
      case Fall => "fall"
      case Emergency => "emergency"
    }

    /** The hazard's place in the priority chain; 0 is tested first. */
    function Rank(): nat {
      match this
      case Obstacle => 0
      case Water => 1
      case Fall => 2
      case Emergency => 3
    }
  }

  /** Whether a record shows a hazard: any of the four obstacle fields, or the hazard's own field. */
  predicate Raised(p: Parameters, h: Hazard) {
    match h
    case Obstacle => p.obstacle1 || p.obstacle2 || p.obstacle3 || p.obstacle4
    case Water => p.water
    case Fall => p.fall
    case Emergency => p.emergency
  }

  /**
   * The if/elif chain over the new record: the raised hazard of least rank, or
   * none when no hazard is raised.
   */
  function SelectHazard(p: Parameters): (fired: Option<Hazard>)
    ensures fired.None? <==> forall h: Hazard :: !Raised(p, h)
    ensures fired.Some? ==> Raised(p, fired.value)
    ensures fired.Some? ==> forall h: Hazard :: h.Rank() < fired.value.Rank() ==> !Raised(p, h)
  {
    if Raised(p, Obstacle) then Some(Obstacle)
    else if Raised(p, Water) then Some(Water)
    else if Raised(p, Fall) then Some(Fall)
    else if Raised(p, Emergency) then Some(Emergency)
    else None
  }

  /** Why the counter step failed: `KeyError`, or `TypeError` on `+= 1`. */
  datatype CounterError = NoSuchCounter(key: string) | NotANumber(key: string, value: Value)

  /**
   * The totals after the counter step: unchanged when no hazard fired, else
   * the fired hazard's counter one higher and `updated_at` set to `now`.
   */
  function Tally(total: Document, fired: Option<Hazard>, now: int): (r: Result<Document, CounterError>)
    ensures fired.None? ==> r == Success(total)
    ensures fired.Some? ==>
      var k := fired.value.CounterKey();
      && (r.Failure? <==> k !in total || Numeric(total[k]).None?)
      && (r.Success? ==>
            && r.value.Keys == total.Keys + {UPDATED_AT}
            && r.value[UPDATED_AT] == TimeV(now)
            && Numeric(r.value[k]) == Some(Numeric(total[k]).value + 1)
            && forall j :: j in total && j != k && j != UPDATED_AT ==> r.value[j] == total[j])
  {
    match fired
    case None => Success(total)
    case Some(h) =>
      var k := h.CounterKey();
      if k !in total then Failure(NoSuchCounter(k))
      else match Increment(total[k])
        case None => Failure(NotANumber(k, total[k]))
        case Some(v) => Success(total[k := v][UPDATED_AT := TimeV(now)])
  }

  /** `current_parameters == parameters`: the stored snapshot without `updated_at` equals the record. */
  predicate Matches(stored: Document, p: Parameters) {
    DictEq(stored - {UPDATED_AT}, p.ToDocument())
  }

  /**
   * The short-circuit guard as evidently intended: only the nine fields of the
   * stored snapshot are compared with the record, so other stored fields do
   * not count as a change.
   */
  predicate MatchesFields(stored: Document, p: Parameters) {
    DictEq(map k | k in stored && k in FIELD_KEYS :: stored[k], p.ToDocument())
  }

  /** The fields the handler writes to "current" when the record changed. */
  function Snapshot(p: Parameters, now: int): (d: Document)
    ensures d.Keys == FIELD_KEYS + {UPDATED_AT}
    ensures forall i :: 0 <= i < |FIELD_NAMES| ==> d[FIELD_NAMES[i]] == BoolV(p.Flags()[i])
    ensures d[UPDATED_AT] == TimeV(now)
  {
    FieldNamesDistinct();
    p.ToDocument()[UPDATED_AT := TimeV(now)]
  }

  /** What one message did, as the log lines tell it. */
  datatype Outcome =
    | DecodeFailed(decodeError: DecodeError)
    | Unchanged
    | Recorded(fired: Option<Hazard>)
    | CountFailed(counterError: CounterError)

  datatype Effect = Effect(current: Document, total: Document, outcome: Outcome)

  /**
   * A decoded record against the stored documents: an unchanged record writes
   * nothing; otherwise the snapshot is written, then the counter step runs, and
   * a failure in it leaves the snapshot written.
   */
  function Reconcile(current: Document, total: Document, p: Parameters, now: int): Effect {
    if Matches(current, p) then Effect(current, total, Unchanged)
    else
      var written := Update(current, Snapshot(p, now));
      var fired := SelectHazard(p);
      match Tally(total, fired, now)
      case Failure(e) => Effect(written, total, CountFailed(e))
      case Success(t) => Effect(written, t, Recorded(fired))
  }

  /** One message: a payload that does not decode writes nothing. */
  function Handle(current: Document, total: Document, payload: string, now: int): Effect {
    match Decode(payload)
    case Failure(e) => Effect(current, total, DecodeFailed(e))
    case Success(p) => Reconcile(current, total, p, now)
  }
}
