/**
 * The declarative per-setting constraints a provider schema states
 * (Required, a default, RequiredWith, ConflictsWith, an integer range) and
 * how the plugin framework checks them against a configuration before the
 * provider's own configure step runs.
 *
 * Every setting is checked on its own and yields at most one diagnostic:
 * a missing required setting; otherwise, when the setting has a value,
 * the first of "a RequiredWith partner is unset", "a ConflictsWith partner
 * is set" and "the integer is outside the range" that applies. Settings
 * are visited in no fixed order, so the diagnostics form a set.
 */
module SchemaValidation {
  import opened Config

  /** A default used when the setting is unset; NoDefault is a nil default. */
  datatype Default = NoDefault | Fallback(v: Value)

  /** An inclusive integer range check. */
  datatype IntRange = IntBetween(lo: int, hi: int)

  datatype FieldSchema = FieldSchema(
    key: Key,
    required: bool,
    default: Default,
    conflictsWith: seq<Key>,
    requiredWith: seq<Key>,
    validate: Option<IntRange>)

  datatype SchemaDiag =
    | MissingRequired(key: Key)
    | NotAllSpecified(key: Key, with: seq<Key>)
    | ConflictsWith(key: Key, other: Key)
    | NotInRange(key: Key, lo: int, hi: int, got: int)
      // the framework's type error for a range check on a non-integer value;
      // no provider setting can produce it, since only the int-typed ports have a range
    | ExpectedInteger(key: Key)

  /** The setting's value, or its default when the bundle leaves it unset. */
  function Effective(f: FieldSchema, b: Bundle): (r: Option<Value>)
    ensures IsSet(b, f.key) ==> r == Lookup(b, f.key)
    ensures r.None? <==> !IsSet(b, f.key) && f.default.NoDefault?
    ensures !IsSet(b, f.key) && f.default.Fallback? ==> r == Some(f.default.v)
  {
    match Lookup(b, f.key)
    case Some(v) => Some(v)
    case None =>
      match f.default
      case NoDefault => None
      case Fallback(v) => Some(v)
  }

  predicate AllSet(b: Bundle, keys: seq<Key>) {
    forall i :: 0 <= i < |keys| ==> IsSet(b, keys[i])
  }

  /** The first of `keys` that the bundle sets, if any. */
  function FirstSet(b: Bundle, keys: seq<Key>): (r: Option<Key>)
    ensures r.None? <==> forall i :: 0 <= i < |keys| ==> !IsSet(b, keys[i])
    ensures r.Some? ==> r.value in keys && IsSet(b, r.value)
    ensures r.Some? ==> exists i :: 0 <= i < |keys| && keys[i] == r.value && forall j :: 0 <= j < i ==> !IsSet(b, keys[j])
  {
    if keys == [] then None
    else if IsSet(b, keys[0]) then Some(keys[0])
    else
      var r := FirstSet(b, keys[1..]);
      assert forall i :: 1 <= i < |keys| ==> keys[i] == keys[1..][i - 1];
      assert r.Some? ==> exists i :: 1 <= i < |keys| && keys[i] == r.value && forall j :: 0 <= j < i ==> !IsSet(b, keys[j]) by {
        if r.Some? {
          var i :| 0 <= i < |keys[1..]| && keys[1..][i] == r.value && forall j :: 0 <= j < i ==> !IsSet(b, keys[1..][j]);
          assert keys[i + 1] == r.value;
        }
      }
      r
  }

  /** The one diagnostic, if any, that checking setting `f` against `b` yields. */
  function FieldDiagnostic(f: FieldSchema, b: Bundle): (r: Option<SchemaDiag>)
    ensures r.Some? ==> r.value.key == f.key
    ensures r == Some(MissingRequired(f.key)) <==> f.required && Effective(f, b).None?
    ensures Effective(f, b).Some? && FirstSet(b, f.conflictsWith).Some? ==> r.Some?
    ensures Effective(f, b).Some? && !AllSet(b, f.requiredWith) ==> r == Some(NotAllSpecified(f.key, f.requiredWith))
    ensures Effective(f, b).Some? && AllSet(b, f.requiredWith) && FirstSet(b, f.conflictsWith).Some? ==>
      r == Some(ConflictsWith(f.key, FirstSet(b, f.conflictsWith).value))
    ensures Effective(f, b).Some? && Effective(f, b).value.Int? && AllSet(b, f.requiredWith) &&
            FirstSet(b, f.conflictsWith).None? && f.validate.Some? ==>
      (r.None? <==> f.validate.value.lo <= Effective(f, b).value.n <= f.validate.value.hi)
  {
    match Effective(f, b)
    case None =>
      if f.required then Some(MissingRequired(f.key)) else None
    case Some(v) =>
      if !AllSet(b, f.requiredWith) then Some(NotAllSpecified(f.key, f.requiredWith))
      else
        match FirstSet(b, f.conflictsWith)
        case Some(other) => Some(ConflictsWith(f.key, other))
        case None =>
          match f.validate
          case None => None
          case Some(IntBetween(lo, hi)) =>
            match v
            case Str(_) => Some(ExpectedInteger(f.key))
            case Int(n) => if lo <= n <= hi then None else Some(NotInRange(f.key, lo, hi, n))
  }

  /**
   * All diagnostics of checking every setting of `fields` against `b`: a
   * diagnostic is reported exactly when some setting yields it, whatever the
   * order the settings are visited in.
   */
  function SchemaDiagnostics(fields: seq<FieldSchema>, b: Bundle): (r: set<SchemaDiag>)
    ensures forall i :: 0 <= i < |fields| && FieldDiagnostic(fields[i], b).Some? ==>
      FieldDiagnostic(fields[i], b).value in r
    ensures forall d :: d in r ==> exists i :: 0 <= i < |fields| && FieldDiagnostic(fields[i], b) == Some(d)
    ensures r == {} <==> forall i :: 0 <= i < |fields| ==> FieldDiagnostic(fields[i], b).None?
  {
    if fields == [] then {}
    else
      var rest := SchemaDiagnostics(fields[1..], b);
      assert forall i :: 1 <= i < |fields| ==> fields[i] == fields[1..][i - 1];
      match FieldDiagnostic(fields[0], b)
      case None => rest
      case Some(d) => {d} + rest
  }
}
