/**
 * The two stored documents, "current" and "total", as the handler sees them:
 * maps from field names to values, compared with Python's `==` and written
 * with the document store's `update`, which overwrites the given fields only.
 */
module Documents {
  import opened Wrappers

  /** A stored field value; `TimeV` is an opaque timestamp such as `updated_at`. */
  datatype Value = NullV | BoolV(b: bool) | IntV(i: int) | TextV(s: string) | TimeV(t: int)

  type Document = map<string, Value>

  /** The number a value stands for in Python arithmetic: `bool` is a subtype of `int`. */
  function Numeric(v: Value): Option<int> {
    match v
    case BoolV(b) => Some(if b then 1 else 0)
    case IntV(i) => Some(i)
    case _ => None
  }

  /** Python's `==` on two values: numbers by value (`True == 1`), the rest structurally. */
  predicate PyEq(a: Value, b: Value) {
    if Numeric(a).Some? && Numeric(b).Some? then Numeric(a) == Numeric(b) else a == b
  }

  /** Python's `==` on two dicts: the same keys, and equal values under every key. */
  predicate DictEq(a: Document, b: Document) {
    a.Keys == b.Keys && forall k :: k in a ==> PyEq(a[k], b[k])
  }

  /** `value + 1`, as `temp_total[key] += 1` computes it; `None` where Python raises `TypeError`. */
  function Increment(v: Value): (r: Option<Value>)
    ensures r.Some? <==> Numeric(v).Some?
    ensures r.Some? ==> r.value.IntV? && r.value.i == Numeric(v).value + 1
  {
    match v
    case BoolV(b) => Some(IntV(if b then 2 else 1))
    case IntV(i) => Some(IntV(i + 1))
    case _ => None
  }

  /**
   * `document.update(fields)`: every given field takes its new value, every
   * other field of the document keeps its old one.
   */
  function Update(doc: Document, fields: Document): (r: Document)
    ensures r.Keys == doc.Keys + fields.Keys
    ensures forall k :: k in fields ==> r[k] == fields[k]
    ensures forall k :: k in doc && k !in fields ==> r[k] == doc[k]
  {
    doc + fields
  }

  /** Python's `==` on values is an equivalence. */
  lemma PyEqEquivalence(a: Value, b: Value, c: Value)
    ensures PyEq(a, a)
    ensures PyEq(a, b) ==> PyEq(b, a)
    ensures PyEq(a, b) && PyEq(b, c) ==> PyEq(a, c)
  {
  }

  /** ... and so is `==` on dicts. */
  lemma DictEqReflexive(a: Document)
    ensures DictEq(a, a)
  {
    forall k | k in a ensures PyEq(a[k], a[k]) {
      PyEqEquivalence(a[k], a[k], a[k]);
    }
  }

  /** `v + 1` never compares equal to `v`, so an incremented counter always reads as changed. */
  lemma IncrementChanges(v: Value)
    requires Increment(v).Some?
    ensures !PyEq(v, Increment(v).value)
  {
  }

  /** Changing one key to a value that is not `==` to the old one makes the dicts differ. */
  lemma DictEqAfterChange(a: Document, k: string, v: Value)
    requires k in a
    ensures DictEq(a, a[k := v]) <==> PyEq(a[k], v)
  {
    var b := a[k := v];
    if PyEq(a[k], v) {
      forall j | j in a ensures PyEq(a[j], b[j]) {
        PyEqEquivalence(a[j], a[j], a[j]);
      }
    } else {
      assert !PyEq(a[k], b[k]);
    }
  }

  /** An update that names every field of the document replaces it outright. */
  lemma UpdateCovering(doc: Document, fields: Document)
    requires doc.Keys <= fields.Keys
    ensures Update(doc, fields) == fields
  {
  }
}
