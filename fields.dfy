/**
 * The nullable-unique column types of the customer app (fields.py).
 *
 * Both NullableUniqueCharField and NullableUniqueEmailField store SQL NULL
 * for an empty value, so that a UNIQUE index admits many "absent" rows, and
 * hand "" back to Python for NULL. The two classes have identical bodies;
 * one pair of functions models both.
 */
module Fields {

  /** What a nullable text column holds: SQL NULL or a string. */
  datatype Nullable = Null | Text(s: string)

  /** Python truthiness of an optional string: None and "" are false. */
  predicate Truthy(v: Nullable) {
    v.Text? && v.s != ""
  }

  /** `to_python`: `value or ""`. */
  function ToPython(v: Nullable): (r: string)
    ensures r == "" <==> !Truthy(v)
    ensures Truthy(v) ==> r == v.s
  {
    if Truthy(v) then v.s else ""
  }

  /** `get_prep_value`: `value or None`, the value written to the database. */
  function GetPrepValue(v: Nullable): (r: Nullable)
    ensures r.Null? <==> !Truthy(v)
    ensures Truthy(v) ==> r == v
    ensures r != Text("")
  {
    if Truthy(v) then v else Null
  }

  /** Storing a Python string and reading it back through to_python gives the string again. */
  lemma RoundTrip(s: string)
    ensures ToPython(GetPrepValue(Text(s))) == s
  {
  }

  /** A stored value read back and stored again is unchanged. */
  lemma PrepRoundTrip(v: Nullable)
    ensures GetPrepValue(Text(ToPython(v))) == GetPrepValue(v)
  {
  }

  lemma ToPythonIdempotent(v: Nullable)
    ensures ToPython(Text(ToPython(v))) == ToPython(v)
  {
  }

  lemma GetPrepValueIdempotent(v: Nullable)
    ensures GetPrepValue(GetPrepValue(v)) == GetPrepValue(v)
  {
  }
}
