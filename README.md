# Blind-stick telemetry handler

A Dafny model of the MQTT-to-Firestore bridge of the blind-stick IoT
project: the message handler `on_message` of `server.py`, plus the
startup check that both parameter documents exist.

Each telemetry message is a whitespace-separated payload of nine numeric
tokens. Their order is obstacle1..4, water, fall, emergency, power and
stop. The handler works in five steps:

1. It decodes each token as `bool(float(token))`.
2. It compares the result with the stored "current" snapshot, ignoring
   `updated_at`. If they are equal, it stops.
3. Otherwise it writes the new snapshot with `updated_at`.
4. It runs the if/elif chain obstacle → water → fall → emergency over the
   new values, and adds one to the counter of the first hazard raised in
   the "total" document.
5. It writes the totals back when they changed.

Any exception inside the `try` ends the handling of that message. Writes
already made stay made.

Modules, in dependency order:

- `Wrappers`: `Option` and `Result`.
- `Tokens`: Python's `str.split()` with no argument, and a single-space
  `Join` as its inverse.
- `Floats`: Python's `float()` grammar. It covers a sign, a digit part
  with underscores, a fraction, an exponent, and `inf`/`infinity`/`nan`
  in any case. A finite value is kept exactly, as sign, mantissa and power
  of ten. `Truthy` is `bool()` of the result.
- `Documents`: stored field values, Python `==` on values and dicts
  (`True == 1`), `+= 1`, and the document store's `update`.
- `Telemetry`: the handler as a function of the two stored documents,
  `Handle`. It covers decoding, the short circuit on an unchanged
  snapshot, the hazard chain and the counter step.
- `Server`: the startup check, and the class `TelemetryHandler`. The class
  holds the two documents as fields; its method `OnMessage` runs the
  handler step by step and is proved equal to `Handle`.
- `Properties`: lemmas that relate several steps or several messages:
  - round trips of the device encoding;
  - idempotence;
  - at most one counter changes, and never downward;
  - no rollback after a failed counter step;
  - the end-to-end example.

The timestamp `now` is a parameter, as an opaque integer.

The counter is chosen from the new values alone. The handler computes no
set of changed fields, sends no notification and keeps no event log, and
every payload has the same nine positions.

## Model

| member | source | states |
|---|---|---|
| Tokens.Split | server.py:72 | every token `payload.split()` yields is non-empty and holds no whitespace |
| Tokens.SplitAtSpace | server.py:72 | splitting at a whitespace character splits the two sides independently |
| Tokens.SplitJoin | server.py:72 | splitting tokens joined by single spaces gives the same tokens back |
| Floats.ParseFloat | server.py:73-81 | `float(token)`, `None` where it raises `ValueError`; characterised by DigitStringParses, NumeralParses, SignKeepsTruth and the example lemmas below |
| Floats.Truthy | server.py:73-81 | `bool()` of a float: false only for a zero of either sign; characterised by NumeralParses, DigitStringTruthy and NegativeZero |
| Floats.DigitStringParses | server.py:73-81 | `float` of a plain digit string is the integer those digits denote |
| Floats.NumeralParses | server.py:73-81 | `float` of the decimal numeral of n is n, and `bool` of it is true exactly when n is not 0 |
| Floats.DigitStringTruthy | server.py:73-81 | `bool(float(s))` of a digit string is true exactly when some digit is not `0` |
| Floats.SignKeepsTruth | server.py:73-81 | a leading `+` changes nothing; a leading `-` changes neither acceptance nor truth |
| Floats.Accepted | server.py:73-81 | `1`, `0`, `.5`, `5.` and `nAn` are accepted with the expected values |
| Floats.NegativeZero | server.py:73-81 | `-0.0` is accepted and is false |
| Floats.Underscores | server.py:73-81 | `1_000` is 1000 |
| Floats.Exponent | server.py:73-81 | `2.5E-3` is 25·10^-4 |
| Floats.SignedInfinity | server.py:73-81 | `-Infinity` is negative infinity |
| Floats.RefusedDigits | server.py:73-81 | `float` raises for the empty string, `.`, and misplaced underscores |
| Floats.RefusedOther | server.py:73-81 | `float` raises for an incomplete exponent, a doubled sign, and other words |
| Documents.PyEq | server.py:94 | Python `==` on two stored values, with `True == 1`; PyEqEquivalence shows it is an equivalence and IncrementChanges that `v + 1` is never `==` `v` |
| Documents.DictEq | server.py:94 | Python `==` on two dicts; characterised by DictEqReflexive, DictEqAfterChange, MatchesFieldwise |
| Documents.Increment | server.py:105-111 | `+= 1` succeeds exactly on an int or a bool, and gives the int one higher |
| Documents.Update | server.py:97 | `update` sets the given fields and keeps every other field |
| Documents.PyEqEquivalence | server.py:94 | Python `==` on stored values is reflexive, symmetric and transitive |
| Documents.DictEqReflexive | server.py:113 | a dict is `==` to its copy |
| Documents.IncrementChanges | server.py:113 | an incremented counter never compares equal to its old value |
| Documents.DictEqAfterChange | server.py:113 | changing one key leaves a dict `==` exactly when the new value is `==` the old |
| Documents.UpdateCovering | server.py:116 | an update naming every field of the document replaces the document |
| Telemetry.FieldNamesDistinct | server.py:82-92 | the nine field names are distinct, and none is `updated_at` |
| Telemetry.Parameters.ToDocument | server.py:82-92 | the `parameters` dict has exactly the nine keys, each holding its field |
| Telemetry.ReadFlag | server.py:73-81 | one assignment succeeds exactly when the token is present and numeric, giving its truth; otherwise `IndexError` past the end, else `ValueError` with the token |
| Telemetry.ReadFlags | server.py:73-81 | the assignments succeed exactly when every position is readable; each flag is its token's truth; otherwise the error names the first failing position, as `IndexError` past the end or `ValueError` with the token |
| Telemetry.FromFlags | server.py:73-92 | the record built from nine flags has those flags |
| Telemetry.DecodeTokens | server.py:72-92 | decoding succeeds exactly when there are at least nine tokens and the first nine are numbers; field i is then the truth of token i |
| Telemetry.Decode | server.py:72-92 | `split()` and then the nine assignments; DecodeTokens states when it succeeds and what it yields; DecodeEncode, TrailingTokensIgnored and DecodeFailureWritesNothing relate it to payloads |
| Telemetry.Matches | server.py:67-94 | the guard `current_parameters == parameters` on the snapshot without `updated_at`; MatchesFieldwise gives both directions fieldwise, MatchesUnique and ExtraFieldDefeatsShortCircuit its consequences |
| Telemetry.Reconcile | server.py:94-119 | one decoded record against the stored documents; its behaviour is stated by ReconcileTwice, ChangedSnapshotWritten, CountedHazardIsFirstRaised, AtMostOneCounterChanges, TotalsWrittenIffHazardFired, NoCounterDecreases, CountIgnoresOldSnapshot and CountFailureKeepsSnapshot |
| Telemetry.Handle | server.py:62-123 | one message on the two documents; DecodeFailureWritesNothing, RepeatChangesNothing, HandleEncoded and ObstacleEndToEnd state it, and OnMessage is proved to compute it |
| Telemetry.SelectHazard | server.py:104-111 | no hazard exactly when none is raised; otherwise a raised one, and none of lower rank is raised |
| Telemetry.Tally | server.py:103-116 | with no hazard the totals are unchanged; otherwise the step fails exactly on a missing or non-numeric counter, and on success only that counter changes, by +1, and `updated_at` becomes `now` |
| Telemetry.Snapshot | server.py:96-97 | the written snapshot holds the nine fields with the decoded values, and `updated_at` = now |
| Server.CheckSchema | server.py:43-51 | startup continues exactly when both documents exist; a missing "current" is reported first |
| Server.TelemetryHandler.OnMessage | server.py:62-123 | the documents after one message, and its outcome, are those of `Handle` on the documents before it |
| Properties.BitTokenParses | server.py:73-81 | the tokens `1` and `0` are the numbers 1 and 0 |
| Properties.EncodeSplits | server.py:72 | a device payload of `1`/`0` tokens splits into those tokens |
| Properties.BitTokensDecode | server.py:72-92 | the tokens `1`/`0` of a record decode to that record |
| Properties.DecodeEncode | server.py:72-92 | decoding a record's device encoding gives the record back |
| Properties.ReadFlagsIgnoresExtra | server.py:73-81 | tokens after the ninth never change the assignments |
| Properties.DecodeIgnoresExtraTokens | server.py:72-92 | extra tokens never change what decodes |
| Properties.TrailingTokensIgnored | server.py:72-92 | anything after the nine tokens and a space is ignored |
| Properties.DecodeFailureWritesNothing | server.py:72-81 | a short payload, or one with a non-number among the first nine tokens, writes neither document |
| Properties.MatchesFieldwise | server.py:67-94 | the stripped snapshot is `==` the record exactly when it has the nine keys and no other, each `==` the record's field |
| Properties.FieldDiffers | server.py:94 | one differing field defeats the short circuit |
| Properties.MatchesUnique | server.py:94 | a stored snapshot matches at most one record |
| Properties.WrittenSnapshotMatches | server.py:94-97 | after the write, the snapshot matches its record, if it held no other fields |
| Properties.ReconcileTwice | server.py:94-101 | when the stored snapshot holds no field besides the nine and `updated_at`, reconciling a record a second time writes nothing |
| Properties.RepeatChangesNothing | server.py:62-123 | idempotence, when the stored snapshot holds no field besides the nine and `updated_at`: the same payload handled twice changes nothing the second time |
| Properties.ExtraFieldDefeatsShortCircuit | server.py:67-94 | a stored field outside the nine and `updated_at` makes every message count as a change |
| Properties.RepeatCountedAgain | server.py:67-119 | with such a field stored, the second of two identical messages is not short-circuited either |
| Properties.FieldsGuardFiresOnRepeat | server.py:94-101 | a guard that compares only the nine fields finds the written snapshot unchanged, whatever else the document holds |
| Properties.FieldsGuardAgrees | server.py:94 | without other stored fields, that guard and the guard as written agree |
| Properties.ChangedSnapshotWritten | server.py:94-98 | a changed record is written: nine fields, `updated_at`, every other field kept |
| Properties.CountedHazardIsFirstRaised | server.py:104-111 | the counted hazard is the first raised, in chain order |
| Properties.PowerAndStopNeverSelect | server.py:104-111 | power and stop never choose a hazard |
| Properties.TallyChangesOneCounter | server.py:103-116 | the counter step changes at most one counter, by +1, and adds at most `updated_at` |
| Properties.AtMostOneCounterChanges | server.py:103-119 | at most one counter changes per message, by exactly +1 |
| Properties.TotalsWrittenIffHazardFired | server.py:113-119 | the totals change, and then carry `updated_at` = now, exactly when the outcome is `Recorded(Some(h))`: the record changed, a hazard was raised and its counter step succeeded |
| Properties.NoCounterDecreases | server.py:103-119 | no counter ever goes down |
| Properties.CountIgnoresOldSnapshot | server.py:103-111 | the counter step depends on the new record only, never on the old snapshot |
| Properties.PowerToggleIsChange | server.py:94 | toggling power alone defeats the short circuit |
| Properties.StillRaisedHazardCountedAgain | server.py:94-111 | a hazard still raised is counted again when only power changes |
| Properties.CountFailureKeepsSnapshot | server.py:94-123 | the counter step fails exactly on a missing or non-numeric counter; the snapshot stays written and the totals are untouched |
| Properties.HandleEncoded | server.py:62-123 | a device payload is handled as the record it encodes |
| Properties.HazardCounted | server.py:94-116 | a changed record whose hazard counter is an int: snapshot written, that counter +1, `updated_at` set |
| Properties.SnapshotOverwritten | server.py:94-97 | against the all-false snapshot, the example record is a change that replaces it |
| Properties.ObstacleReconciled | server.py:94-116 | obstacle1 and power on the all-false snapshot with obstacle = 3: snapshot updated, obstacle = 4 |
| Properties.ObstacleTokens | server.py:72 | the tokens of the example record |
| Properties.ObstaclePayload | server.py:72 | the example record's device payload is `1 0 0 0 0 0 0 1 0` |
| Properties.ObstacleEndToEnd | server.py:62-123 | the payload `1 0 0 0 0 0 0 1 0` on that state gives that result |

## Left out

- The MQTT client, its connection and subscription (lines 58-60, 126-130), and the command line (22-33): there is no transport in the model; one call of `OnMessage` is one delivered message.
- Logging, and the `silent` flag that selects tracebacks (120-123): the model reports what happened as an `Outcome` instead of log lines.
- Firebase initialisation and credentials (35-41).
- The settings listener (53-56, 125). It only logs.
- `publish.py`. It is a stand-alone sender. `Telemetry.Encode` is a reference encoding of a record as a device would send it, not a model of that file.
- `bytes.decode` of the payload (63): the payload is already a string; invalid UTF-8 is not modelled.
- The clock (64): `now` is a parameter.
- Reading the documents (67, 69): the handler keeps them as fields. Writes by other processes between messages are not modelled, nor are read or write failures.
- A document deleted while the handler runs is not modelled. For "current", `to_dict()` gives `None` and `.pop` raises at line 68, outside the `try`. For "total", the `None` fails only at `.copy()` on line 103, inside the `try` and after the snapshot write at line 97, so it ends the message like a failed counter step.
- Concurrency: one message at a time.
- Floats.Truthy: does not model rounding to a double. A finite token whose exact value is at most 2^-1075 (such as `1e-400`) rounds to 0.0 and is false in Python; the model counts it true. Overflow to infinity is truthy in both.
- Floats.ParseFloat: does not accept non-ASCII decimal digits. Python's `float` does, but `split()` tokens from a device are ASCII. Surrounding whitespace, which `float` would strip, cannot occur in a token.
- Stored values are null, bool, int, string and timestamp. Float values inside the stored documents (where `1.0 == True`) are not modelled.
- A stored key containing a dot is not modelled. The totals write at line 116 sends back every key of the fetched document, and the store's `update` would read such a key as a nested field path.

## Findings

| source | as written | input that shows it | evidently intended | confidence | as-written member | corrected member |
|---|---|---|---|---|---|---|
| server.py:67-101 | the guard compares the whole stored snapshot, minus `updated_at`, with the nine decoded fields | a "current" document holding any further field, such as `device`, with a payload sent twice | a repeated payload is recognised as unchanged and counted once | low, not executed; it depends on whether the deployed document ever holds other fields | Properties.RepeatCountedAgain | Properties.FieldsGuardFiresOnRepeat |

The corrected guard is `Telemetry.MatchesFields`. The handler model keeps the guard as written, `Telemetry.Matches`, because that is what the source does; the two agree whenever the stored snapshot holds no field besides the nine and `updated_at` (`Properties.FieldsGuardAgrees`).
