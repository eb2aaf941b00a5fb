/** JSON merge patches (section 2 of RFC 7386), and the patch that client.MergeFrom computes
    between two versions of an object. */
module MergePatch {

  datatype Json = Null | Text(text: string) | Number(number: int) | Object(fields: map<string, Json>)

  /** Applying a patch: null removes a member, an object is merged, anything else replaces. */
  function Apply(target: Json, patch: Json): Json
    decreases patch
  {
    if !patch.Object? then patch
    else
      var base := if target.Object? then target.fields else map[];
      Object(map name | name in base.Keys + patch.fields.Keys &&
        (name in patch.fields ==> patch.fields[name] != Null) ::
               if name in patch.fields
               then Apply(if name in base then base[name] else Null, patch.fields[name])
               else base[name])
  }

  /** The members in which two objects differ: removed ones as null, objects member by member. */
  function Diff(a: map<string, Json>, b: map<string, Json>): map<string, Json>
    decreases Object(b)
  {
    map name | name in a.Keys + b.Keys && DiffersAt(a, b, name) ::
      if name !in b then Null
      else if name in a && a[name].Object? && b[name].Object? then Object(Diff(a[name].fields, b[name].fields))
      else b[name]
  }

  predicate DiffersAt(a: map<string, Json>, b: map<string, Json>, name: string)
  {
    (name in a.Keys + b.Keys) && (name !in a || name !in b || a[name] != b[name])
  }

  /** No member is null, at any depth. */
  predicate NullFree(value: Json)
  {
    value != Null && (value.Object? ==> forall name | name in value.fields :: NullFree(value.fields[name]))
  }

  /** A patch without nulls replaces whatever is no object. */
  lemma {:induction false} ApplyToNonObject(target: Json, patch: Json)
    requires !target.Object? && NullFree(patch)
    ensures Apply(target, patch) == patch
    decreases patch
  {
    if patch.Object? {
      forall name | name in patch.fields ensures Apply(Null, patch.fields[name]) == patch.fields[name] {
        ApplyToNonObject(Null, patch.fields[name]);
      }
    }
  }

  /** Applying the difference of two objects to the first one gives the second one. */
  lemma {:induction false} ApplyDiff(a: map<string, Json>, b: map<string, Json>)
    requires NullFree(Object(b))
    ensures Apply(Object(a), Object(Diff(a, b))) == Object(b)
    decreases Object(b)
  {
    var patch := Diff(a, b);
    var result := Apply(Object(a), Object(patch)).fields;
    forall name
      ensures name in result <==> name in b
      ensures name in b ==> result[name] == b[name]
    {
      if name in b && name in patch {
        assert patch[name] != Null && NullFree(b[name]);
        var current := if name in a then a[name] else Null;
        assert result[name] == Apply(current, patch[name]);
        if !b[name].Object? {
          assert patch[name] == b[name];
        } else if current.Object? {
          assert Object(b[name].fields) == b[name];
          ApplyDiff(current.fields, b[name].fields);
        } else {
          assert patch[name] == b[name];
          ApplyToNonObject(current, b[name]);
        }
      }
    }
    assert result == b;
  }

  /** Applied to a third object, it touches only the members in which the first two differ. */
  lemma ApplyDiffElsewhere(a: map<string, Json>, b: map<string, Json>, c: map<string, Json>, name: string)
    requires !DiffersAt(a, b, name)
    ensures var result := Apply(Object(c), Object(Diff(a, b))).fields;
      (name in result <==> name in c) && (name in c ==> result[name] == c[name])
  {
  }
}
