/** Looking up a field of a JSON object. */
module JsonObjects {
  import opened Options
  import opened Utf8
  import opened JsonText
  import opened JsonCanonical

  function Lookup(fields: seq<Field>, key: Text): Option<Json> {
    if fields == [] then None
    else if fields[0].key == key then Some(fields[0].value)
    else Lookup(fields[1..], key)
  }

  function KeysOf(fields: seq<Field>): seq<Text> {
    seq(|fields|, i requires 0 <= i < |fields| => fields[i].key)
  }

  lemma KeysOfHold(fields: seq<Field>, f: Field)
    requires f in fields
    ensures f.key in KeysOf(fields)
  {
    var i :| 0 <= i < |fields| && fields[i] == f;
    assert KeysOf(fields)[i] == f.key;
  }

  lemma KeyOwner(fields: seq<Field>, key: Text) returns (f: Field)
    requires key in KeysOf(fields)
    ensures f in fields && f.key == key
  {
    var i :| 0 <= i < |KeysOf(fields)| && KeysOf(fields)[i] == key;
    f := fields[i];
  }

  lemma {:induction false} LookupFinds(fields: seq<Field>, f: Field)
    requires DistinctKeys(fields) && f in fields
    ensures Lookup(fields, f.key) == Some(f.value)
  {
    if fields[0] != f {
      LookupFinds(fields[1..], f);
    }
  }

  /** Sorting a header does not change what a lookup finds. */
  lemma SortedLookup(fields: seq<Field>, f: Field)
    requires DistinctKeys(fields) && f in fields
    ensures Lookup(CanonFields(fields), f.key) == Some(Canon(f.value))
  {
    CanonFieldsSort(fields);
    SortedIsDistinct(CanonFields(fields));
    CanonFieldsHold(fields);
    assert HasField(fields, CanonField(f));
    LookupFinds(CanonFields(fields), CanonField(f));
  }

  lemma SortedKeysOf(fields: seq<Field>, f: Field)
    requires f in CanonFields(fields)
    ensures f.key in KeysOf(fields)
  {
    CanonFieldsHold(fields);
    var g :| g in fields && f == CanonField(g);
    KeysOfHold(fields, g);
  }

  lemma JoinDistinct(base: seq<Field>, fields: seq<Field>)
    requires DistinctKeys(base) && DistinctKeys(fields)
    requires forall b, f | b in base && f in fields :: b.key != f.key
    ensures DistinctKeys(base + fields)
  {
    var all := base + fields;
    forall i, j | 0 <= i < j < |all| ensures all[i].key != all[j].key {
      if i < |base| <= j {
        assert base[i] in base && fields[j - |base|] in fields;
      }
    }
  }

  lemma KeysOfConcat(a: seq<Field>, b: seq<Field>)
    ensures KeysOf(a + b) == KeysOf(a) + KeysOf(b)
  {
  }
}
