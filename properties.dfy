/**
 * What the telemetry handler guarantees, stated over `Handle`: decode failures
 * write nothing, a repeated payload changes nothing, a changed record is
 * written, at most one counter goes up by one, counters never go down, and a
 * failed counter step leaves the snapshot written.
 */
module Properties {
  import opened Wrappers
  import opened Documents
  import opened Telemetry
  import Tokens
  import Floats

  // ---------------------------------------------------------------- decoding

  /** The tokens `0` and `1` are the numbers 0 and 1. */
  lemma BitTokenParses(b: bool)
    ensures Floats.ParseFloat(if b then "1" else "0") == Some(Floats.Finite(false, if b then 1 else 0, 0))
  {
    var n := if b then 1 else 0;
    Floats.NumeralParses(n);
    assert Floats.Numeral(n) == (if b then "1" else "0");
  }

  /** The payload a device sends splits into one `1` or `0` token per field. */
  lemma EncodeSplits(p: Parameters)
    ensures Tokens.Split(Encode(p)) == BitTokens(p)
  {
    Tokens.SplitJoin(BitTokens(p));
  }

  /** The tokens `1` and `0` decode to the record's fields. */
  lemma BitTokensDecode(p: Parameters)
    ensures DecodeTokens(BitTokens(p)) == Success(p)
  {
    var tokens := BitTokens(p);
    forall i | 0 <= i < |FIELD_NAMES| ensures Readable(tokens, i) && TokenFlag(tokens, i) == p.Flags()[i] {
      BitTokenParses(p.Flags()[i]);
    }
    var flags := ReadFlags(tokens, 0);
    assert flags.value == p.Flags();
  }

  /** The device's encoding decodes back to the record it encodes. */
  lemma DecodeEncode(p: Parameters)
    ensures Decode(Encode(p)) == Success(p)
  {
    EncodeSplits(p);
    BitTokensDecode(p);
  }

  /** Tokens after the first nine never change what a payload decodes to. */
  lemma {:induction false} ReadFlagsIgnoresExtra(tokens: seq<string>, extra: seq<string>, i: nat)
    requires |tokens| >= |FIELD_NAMES| && i <= |FIELD_NAMES|
    ensures ReadFlags(tokens + extra, i) == ReadFlags(tokens, i)
    decreases |FIELD_NAMES| - i
  {
    if i < |FIELD_NAMES| {
      assert (tokens + extra)[i] == tokens[i];
      ReadFlagsIgnoresExtra(tokens, extra, i + 1);
    }
  }

  lemma DecodeIgnoresExtraTokens(tokens: seq<string>, extra: seq<string>)
    requires |tokens| >= |FIELD_NAMES|
    ensures DecodeTokens(tokens + extra) == DecodeTokens(tokens)
  {
    ReadFlagsIgnoresExtra(tokens, extra, 0);
  }

  /** Whatever follows the nine tokens after a space is ignored. */
  lemma TrailingTokensIgnored(p: Parameters, rest: string)
    ensures Decode(Encode(p) + " " + rest) == Success(p)
  {
    Tokens.SplitAtSpace(Encode(p), ' ', rest);
    DecodeEncode(p);
    DecodeIgnoresExtraTokens(Tokens.Split(Encode(p)), Tokens.Split(rest));
  }

  /**
   * A payload with fewer than nine tokens, or with a non-number among the first
   * nine, fails to decode, and neither document is written.
   */
  lemma DecodeFailureWritesNothing(current: Document, total: Document, payload: string, now: int)
    requires var tokens := Tokens.Split(payload);
      |tokens| < |FIELD_NAMES| || exists i :: 0 <= i < |FIELD_NAMES| && Floats.ParseFloat(tokens[i]).None?
    ensures var e := Handle(current, total, payload, now);
      e.current == current && e.total == total && e.outcome.DecodeFailed?
  {
    var tokens := Tokens.Split(payload);
    if |tokens| >= |FIELD_NAMES| {
      var i :| 0 <= i < |FIELD_NAMES| && Floats.ParseFloat(tokens[i]).None?;
      assert !Readable(tokens, i);
    }
  }

  // ------------------------------------------------------- the short circuit

  /**
   * The stored snapshot matches a record exactly when, besides `updated_at`, it
   * holds the nine fields and no other, each equal (by Python's `==`) to the
   * record's field.
   */
  lemma MatchesFieldwise(stored: Document, p: Parameters)
    ensures Matches(stored, p) <==>
      && stored.Keys - {UPDATED_AT} == FIELD_KEYS
      && forall i :: 0 <= i < |FIELD_NAMES| ==>
           FIELD_NAMES[i] in stored && PyEq(stored[FIELD_NAMES[i]], BoolV(p.Flags()[i]))
  {
    FieldNamesDistinct();
    var stripped := stored - {UPDATED_AT};
    var d := p.ToDocument();
    if stripped.Keys == FIELD_KEYS {
      if forall i :: 0 <= i < |FIELD_NAMES| ==> PyEq(stored[FIELD_NAMES[i]], BoolV(p.Flags()[i])) {
        forall k | k in stripped ensures PyEq(stripped[k], d[k]) {
          var i :| 0 <= i < |FIELD_NAMES| && FIELD_NAMES[i] == k;
        }
      }
    }
  }

  /** A snapshot that differs from a record in one field does not match it. */
  lemma FieldDiffers(stored: Document, p: Parameters, i: nat)
    requires i < |FIELD_NAMES| && FIELD_NAMES[i] in stored
    requires !PyEq(stored[FIELD_NAMES[i]], BoolV(p.Flags()[i]))
    ensures !Matches(stored, p)
  {
    MatchesFieldwise(stored, p);
  }

  /** A stored snapshot matches at most one record. */
  lemma MatchesUnique(stored: Document, p: Parameters, q: Parameters)
    requires Matches(stored, p) && Matches(stored, q)
    ensures p == q
  {
    MatchesFieldwise(stored, p);
    MatchesFieldwise(stored, q);
    forall i | 0 <= i < |FIELD_NAMES| ensures p.Flags()[i] == q.Flags()[i] {
      var v := stored[FIELD_NAMES[i]];
      PyEqEquivalence(BoolV(p.Flags()[i]), v, BoolV(q.Flags()[i]));
      PyEqEquivalence(v, BoolV(p.Flags()[i]), v);
    }
    assert p.Flags() == q.Flags();
  }

  /** After the snapshot is written for a record, it matches that record, if it held no other fields. */
  lemma WrittenSnapshotMatches(current: Document, p: Parameters, now: int)
    requires current.Keys <= FIELD_KEYS + {UPDATED_AT}
    ensures Matches(Update(current, Snapshot(p, now)), p)
  {
    var written := Update(current, Snapshot(p, now));
    FieldNamesDistinct();
    forall i | 0 <= i < |FIELD_NAMES|
      ensures FIELD_NAMES[i] in written && PyEq(written[FIELD_NAMES[i]], BoolV(p.Flags()[i]))
    {
      PyEqEquivalence(BoolV(p.Flags()[i]), BoolV(p.Flags()[i]), BoolV(p.Flags()[i]));
    }
    MatchesFieldwise(written, p);
  }

  /**
   * Reconciling the same record twice in a row: the second time finds it
   * unchanged and writes nothing, provided the stored snapshot held no field
   * besides the nine and `updated_at`.
   */
  lemma ReconcileTwice(current: Document, total: Document, p: Parameters, now1: int, now2: int)
    requires current.Keys <= FIELD_KEYS + {UPDATED_AT}
    ensures var first := Reconcile(current, total, p, now1);
      Reconcile(first.current, first.total, p, now2) == Effect(first.current, first.total, Unchanged)
  {
    if !Matches(current, p) {
      WrittenSnapshotMatches(current, p, now1);
    }
  }

  /**
   * Idempotence: handling the same payload twice in a row, the second time
   * changes neither document and, when the payload decodes, reports the record
   * unchanged.
   */
  lemma RepeatChangesNothing(current: Document, total: Document, payload: string, now1: int, now2: int)
    requires current.Keys <= FIELD_KEYS + {UPDATED_AT}
    ensures var first := Handle(current, total, payload, now1);
      var second := Handle(first.current, first.total, payload, now2);
      && second.current == first.current
      && second.total == first.total
      && (first.outcome.DecodeFailed? || second.outcome == Unchanged)
  {
    match Decode(payload)
    case Failure(_) =>
    case Success(p) => ReconcileTwice(current, total, p, now1, now2);
  }

  /**
   * Without that condition the short circuit never fires: a stored snapshot
   * with any other field compares unequal to every record, and keeps the field,
   * so every later message is counted again.
   */
  lemma ExtraFieldDefeatsShortCircuit(current: Document, total: Document, p: Parameters, now: int, k: string)
    requires k in current && k !in FIELD_KEYS && k != UPDATED_AT
    ensures var e := Reconcile(current, total, p, now);
      e.outcome != Unchanged && k in e.current
  {
    assert k in (current - {UPDATED_AT}).Keys;
    assert !Matches(current, p);
  }

  /**
   * So a repeated payload is counted again: with such a field stored, the
   * second of two identical messages is not short-circuited either.
   */
  lemma RepeatCountedAgain(current: Document, total: Document, p: Parameters, now1: int, now2: int, k: string)
    requires k in current && k !in FIELD_KEYS && k != UPDATED_AT
    ensures var first := Reconcile(current, total, p, now1);
      Reconcile(first.current, first.total, p, now2).outcome != Unchanged
  {
    ExtraFieldDefeatsShortCircuit(current, total, p, now1, k);
    var first := Reconcile(current, total, p, now1);
    ExtraFieldDefeatsShortCircuit(first.current, first.total, p, now2, k);
  }

  /** The guard on the nine fields alone fires on the repeat whatever else the snapshot holds. */
  lemma FieldsGuardFiresOnRepeat(current: Document, p: Parameters, now: int)
    ensures MatchesFields(Update(current, Snapshot(p, now)), p)
  {
    FieldNamesDistinct();
    var written := Update(current, Snapshot(p, now));
    var fields := map k | k in written && k in FIELD_KEYS :: written[k];
    var d := p.ToDocument();
    assert fields.Keys == FIELD_KEYS;
    forall k | k in fields ensures PyEq(fields[k], d[k]) {
      var i :| 0 <= i < |FIELD_NAMES| && FIELD_NAMES[i] == k;
      PyEqEquivalence(d[k], d[k], d[k]);
    }
  }

  /** Where the snapshot holds no other field, the two guards agree. */
  lemma FieldsGuardAgrees(current: Document, p: Parameters)
    requires current.Keys <= FIELD_KEYS + {UPDATED_AT}
    ensures MatchesFields(current, p) <==> Matches(current, p)
  {
    assert (map k | k in current && k in FIELD_KEYS :: current[k]) == current - {UPDATED_AT};
  }

  // ----------------------------------------------------- the snapshot write

  /**
   * A record that differs from the stored snapshot is written: the nine fields
   * take the decoded values, `updated_at` becomes `now`, every other field is
   * left as it was.
   */
  lemma ChangedSnapshotWritten(current: Document, total: Document, p: Parameters, now: int)
    requires !Matches(current, p)
    ensures var e := Reconcile(current, total, p, now);
      && e.current.Keys == current.Keys + FIELD_KEYS + {UPDATED_AT}
      && (forall i :: 0 <= i < |FIELD_NAMES| ==> e.current[FIELD_NAMES[i]] == BoolV(p.Flags()[i]))
      && e.current[UPDATED_AT] == TimeV(now)
      && (forall k :: k in current && k !in FIELD_KEYS && k != UPDATED_AT ==> e.current[k] == current[k])
      && (e.outcome.Recorded? || e.outcome.CountFailed?)
  {
    FieldNamesDistinct();
  }

  // ---------------------------------------------------------------- counting

  /**
   * The hazard counted is the first raised one of the new record, in the order
   * obstacle, water, fall, emergency; power and stop never select one.
   */
  lemma CountedHazardIsFirstRaised(current: Document, total: Document, p: Parameters, now: int)
    ensures var e := Reconcile(current, total, p, now);
      && (e.outcome == Recorded(None) ==> forall h: Hazard :: !Raised(p, h))
      && (forall h :: e.outcome == Recorded(Some(h)) ==>
            Raised(p, h) && forall g: Hazard :: g.Rank() < h.Rank() ==> !Raised(p, g))
  {
  }

  lemma PowerAndStopNeverSelect(p: Parameters, power: bool, stop: bool)
    ensures SelectHazard(p.(power := power, stop := stop)) == SelectHazard(p)
    ensures !p.obstacle1 && !p.obstacle2 && !p.obstacle3 && !p.obstacle4 && !p.water && !p.fall && !p.emergency
      ==> SelectHazard(p) == None
  {
  }

  /** The counter step changes at most the fired hazard's counter, by one, and adds at most `updated_at`. */
  lemma TallyChangesOneCounter(total: Document, fired: Option<Hazard>, now: int)
    ensures var r := Tally(total, fired, now);
      r.Success? ==>
        && total.Keys <= r.value.Keys <= total.Keys + {UPDATED_AT}
        && forall k :: k in total && k != UPDATED_AT && r.value[k] != total[k] ==>
             && fired.Some? && k == fired.value.CounterKey()
             && Numeric(r.value[k]) == Some(Numeric(total[k]).value + 1)
  {
  }

  /**
   * At most one counter changes, the fired hazard's, and it goes up by exactly
   * one; the totals gain no field besides `updated_at`.
   */
  lemma AtMostOneCounterChanges(current: Document, total: Document, p: Parameters, now: int)
    ensures var e := Reconcile(current, total, p, now);
      && total.Keys <= e.total.Keys <= total.Keys + {UPDATED_AT}
      && forall k :: k in total && k != UPDATED_AT && e.total[k] != total[k] ==>
           && e.outcome.Recorded? && e.outcome.fired.Some?
           && k == e.outcome.fired.value.CounterKey()
           && Numeric(e.total[k]) == Some(Numeric(total[k]).value + 1)
  {
    var e := Reconcile(current, total, p, now);
    if !Matches(current, p) {
      var fired := SelectHazard(p);
      TallyChangesOneCounter(total, fired, now);
      match Tally(total, fired, now)
      case Failure(_) =>
        assert e.total == total;
      case Success(t) =>
        assert e.total == t && e.outcome == Recorded(fired);
    }
  }

  /**
   * The totals are written, with `updated_at` set to `now`, exactly when a
   * hazard fired and its counter was incremented.
   */
  lemma TotalsWrittenIffHazardFired(current: Document, total: Document, p: Parameters, now: int)
    ensures var e := Reconcile(current, total, p, now);
      && (e.total != total <==> e.outcome.Recorded? && e.outcome.fired.Some?)
      && (e.total != total ==> e.total[UPDATED_AT] == TimeV(now))
  {
    var e := Reconcile(current, total, p, now);
    if e.outcome.Recorded? && e.outcome.fired.Some? {
      var k := e.outcome.fired.value.CounterKey();
      assert Numeric(e.total[k]) != Numeric(total[k]);
    }
  }

  /** No counter ever goes down. */
  lemma NoCounterDecreases(current: Document, total: Document, p: Parameters, now: int)
    ensures var e := Reconcile(current, total, p, now);
      forall k :: k in total && k != UPDATED_AT && Numeric(total[k]).Some? ==>
        k in e.total && Numeric(e.total[k]).Some? && Numeric(e.total[k]).value >= Numeric(total[k]).value
  {
    AtMostOneCounterChanges(current, total, p, now);
  }

  /**
   * The counter follows the new record only: once the record differs from the
   * snapshot, the totals come out the same whatever the snapshot held.
   */
  lemma CountIgnoresOldSnapshot(current1: Document, current2: Document, total: Document, p: Parameters, now: int)
    requires !Matches(current1, p) && !Matches(current2, p)
    ensures Reconcile(current1, total, p, now).total == Reconcile(current2, total, p, now).total
    ensures Reconcile(current1, total, p, now).outcome == Reconcile(current2, total, p, now).outcome
  {
  }

  /** A snapshot that matches a record does not match it with power toggled. */
  lemma PowerToggleIsChange(current: Document, q: Parameters)
    requires Matches(current, q)
    ensures !Matches(current, q.(power := !q.power))
  {
    if Matches(current, q.(power := !q.power)) {
      MatchesUnique(current, q.(power := !q.power), q);
    }
  }

  /**
   * A hazard that stays raised is counted again when only power changes: the
   * record differs from the stored one, so the chain runs on the new values.
   */
  lemma StillRaisedHazardCountedAgain(current: Document, total: Document, q: Parameters, now: int)
    requires Matches(current, q)
    requires SelectHazard(q).Some?
    requires var k := SelectHazard(q).value.CounterKey(); k in total && total[k].IntV?
    ensures var k := SelectHazard(q).value.CounterKey();
      var e := Reconcile(current, total, q.(power := !q.power), now);
      && e.outcome == Recorded(SelectHazard(q))
      && e.total[k] == IntV(total[k].i + 1)
  {
    var p := q.(power := !q.power);
    PowerToggleIsChange(current, q);
    PowerAndStopNeverSelect(q, !q.power, q.stop);
    var h := SelectHazard(q).value;
    HazardCounted(current, total, p, now, h, total[h.CounterKey()].i);
  }

  // -------------------------------------------------------------- no rollback

  /**
   * The counter step fails exactly when a hazard fired whose counter is missing
   * or not a number; the snapshot written before it stays written and the
   * totals are untouched.
   */
  lemma CountFailureKeepsSnapshot(current: Document, total: Document, p: Parameters, now: int)
    ensures var fired := SelectHazard(p);
      var e := Reconcile(current, total, p, now);
      && (e.outcome.CountFailed? <==>
            && !Matches(current, p) && fired.Some?
            && (fired.value.CounterKey() !in total || Numeric(total[fired.value.CounterKey()]).None?))
      && (e.outcome.CountFailed? ==> e.current == Update(current, Snapshot(p, now)) && e.total == total)
      && (fired.Some? ==>
            (e.outcome == CountFailed(NoSuchCounter(fired.value.CounterKey())) <==>
             !Matches(current, p) && fired.value.CounterKey() !in total))
  {
  }

  // ------------------------------------------------------------- end to end

  /** A payload in the device's encoding is reconciled as the record it encodes. */
  lemma HandleEncoded(current: Document, total: Document, p: Parameters, now: int)
    ensures Handle(current, total, Encode(p), now) == Reconcile(current, total, p, now)
  {
    DecodeEncode(p);
  }

  /**
   * A changed record that raises a hazard whose counter is a number: the
   * snapshot is written, and the totals are the old ones with that counter one
   * higher and `updated_at` set.
   */
  lemma HazardCounted(current: Document, total: Document, p: Parameters, now: int, h: Hazard, n: int)
    requires !Matches(current, p) && SelectHazard(p) == Some(h)
    requires h.CounterKey() in total && total[h.CounterKey()] == IntV(n)
    ensures Reconcile(current, total, p, now) ==
      Effect(Update(current, Snapshot(p, now)), total[h.CounterKey() := IntV(n + 1)][UPDATED_AT := TimeV(now)], Recorded(Some(h)))
  {
    assert Increment(IntV(n)) == Some(IntV(n + 1));
    assert Tally(total, Some(h), now) == Success(total[h.CounterKey() := IntV(n + 1)][UPDATED_AT := TimeV(now)]);
  }

  /**
   * Obstacle1 and power on an all-false snapshot with the obstacle counter at
   * 3: the two become true and the obstacle counter 4.
   */
  lemma ObstacleReconciled(current: Document, total: Document, now: int)
    requires current == Snapshot(Parameters(false, false, false, false, false, false, false, false, false), 0)
    requires total == map["obstacle" := IntV(3), "water" := IntV(0), "fall" := IntV(0),
                          "emergency" := IntV(0), UPDATED_AT := TimeV(0)]
    ensures
      var p := Parameters(true, false, false, false, false, false, false, true, false);
      var e := Reconcile(current, total, p, now);
      && e.outcome == Recorded(Some(Obstacle))
      && e.current == Snapshot(p, now)
      && e.total == total["obstacle" := IntV(4)][UPDATED_AT := TimeV(now)]
  {
    var p := Parameters(true, false, false, false, false, false, false, true, false);
    SnapshotOverwritten(current, p, now);
    HazardCounted(current, total, p, now, Obstacle, 3);
  }

  /** Against the all-false snapshot, the example record is a change that overwrites it. */
  lemma SnapshotOverwritten(current: Document, p: Parameters, now: int)
    requires current == Snapshot(Parameters(false, false, false, false, false, false, false, false, false), 0)
    requires p == Parameters(true, false, false, false, false, false, false, true, false)
    ensures !Matches(current, p)
    ensures Update(current, Snapshot(p, now)) == Snapshot(p, now)
  {
    FieldDiffers(current, p, 0);
    UpdateCovering(current, Snapshot(p, now));
  }

  /** The tokens of the example record. */
  lemma ObstacleTokens()
    ensures BitTokens(Parameters(true, false, false, false, false, false, false, true, false))
         == ["1", "0", "0", "0", "0", "0", "0", "1", "0"]
  {
  }

  /** The payload of the example is the encoding of obstacle1 and power. */
  lemma ObstaclePayload()
    ensures Encode(Parameters(true, false, false, false, false, false, false, true, false)) == "1 0 0 0 0 0 0 1 0"
  {
    ObstacleTokens();
    var t: seq<string> := ["1", "0", "0", "0", "0", "0", "0", "1", "0"];
    var j := Tokens.Join(t);
    assert j == "1" + " " + Tokens.Join(t[1..]);
    assert Tokens.Join(t[1..]) == "0" + " " + Tokens.Join(t[2..]);
    assert Tokens.Join(t[2..]) == "0" + " " + Tokens.Join(t[3..]);
    assert Tokens.Join(t[3..]) == "0" + " " + Tokens.Join(t[4..]);
    assert Tokens.Join(t[4..]) == "0" + " " + Tokens.Join(t[5..]);
    assert Tokens.Join(t[5..]) == "0" + " " + Tokens.Join(t[6..]);
    assert Tokens.Join(t[6..]) == "0" + " " + Tokens.Join(t[7..]);
    assert Tokens.Join(t[7..]) == "1" + " " + Tokens.Join(t[8..]);
    assert Tokens.Join(t[8..]) == "0";
  }

  /** The same, from the payload "1 0 0 0 0 0 0 1 0". */
  lemma ObstacleEndToEnd(current: Document, total: Document, now: int)
    requires current == Snapshot(Parameters(false, false, false, false, false, false, false, false, false), 0)
    requires total == map["obstacle" := IntV(3), "water" := IntV(0), "fall" := IntV(0),
                          "emergency" := IntV(0), UPDATED_AT := TimeV(0)]
    ensures var e := Handle(current, total, "1 0 0 0 0 0 0 1 0", now);
      && e.outcome == Recorded(Some(Obstacle))
      && e.current == Snapshot(Parameters(true, false, false, false, false, false, false, true, false), now)
      && e.total == total["obstacle" := IntV(4)][UPDATED_AT := TimeV(now)]
  {
    var p := Parameters(true, false, false, false, false, false, false, true, false);
    ObstaclePayload();
    HandleEncoded(current, total, p, now);
    ObstacleReconciled(current, total, now);
  }
}
