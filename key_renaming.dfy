/** `snakeCaseKeys(value, { deep: true })`, with the case conversion of a single key
    left abstract: `snake` converts one key, and the conversion is applied to every
    object at every depth, inside arrays too. */
module KeyRenaming {
  import opened Json

  /** `r` is a deep renaming of `v`: lists keep their length and order, scalars stay
      as they are, and an object's converted keys are exactly the images of its keys,
      each holding the renamed value of a member whose key converts to it. When two
      keys of one object convert to the same key, one of the two members survives. */
  ghost predicate IsRenaming(v: Value, r: Value, snake: string -> string)
    decreases v
  {
    match v
    case Arr(xs) =>
      && r.Arr? && |r.elems| == |xs|
      && forall i :: 0 <= i < |xs| ==> IsRenaming(xs[i], r.elems[i], snake)
    case Obj(m) =>
      && r.Obj?
      && (forall k :: k in m ==> snake(k) in r.fields)
      && (forall k' :: k' in r.fields ==>
            exists k :: k in m && snake(k) == k' && IsRenaming(m[k], r.fields[k'], snake))
    case _ => r == v
  }

  /** The deep conversion: each object is rebuilt by assigning its renamed members
      one after the other into a fresh object. */
  method RenameKeys(v: Value, snake: string -> string) returns (r: Value)
    ensures IsRenaming(v, r, snake)
    decreases v
  {
    match v
    case Arr(xs) =>
      var out: seq<Value> := [];
      var i := 0;
      while i < |xs|
        invariant 0 <= i <= |xs| && |out| == i
        invariant forall j :: 0 <= j < i ==> IsRenaming(xs[j], out[j], snake)
      {
        var x := RenameKeys(xs[i], snake);
        out := out + [x];
        i := i + 1;
      }
      r := Arr(out);
    case Obj(m) =>
      var out: map<string, Value> := map[];
      var rest := m.Keys;
      while rest != {}
        invariant rest <= m.Keys
        invariant forall k :: k in m && k !in rest ==> snake(k) in out
        invariant forall k' :: k' in out ==>
                    exists k :: k in m && snake(k) == k' && IsRenaming(m[k], out[k'], snake)
        decreases rest
      {
        var k :| k in rest;
        var x := RenameKeys(m[k], snake);
        out := out[snake(k) := x];
        rest := rest - {k};
      }
      r := Obj(out);
    case _ =>
      r := v;
  }

  /** Renaming never invents keys: an object's keys afterwards are the converted keys it had. */
  lemma RenamedKeys(m: map<string, Value>, r: Value, snake: string -> string)
    requires IsRenaming(Obj(m), r, snake)
    ensures r.Obj?
    ensures forall k' :: k' in r.fields <==> exists k :: k in m && snake(k) == k'
  {
  }

  /** The identity conversion leaves every value as it is. */
  lemma {:induction false} RenamingIdentity(v: Value, r: Value)
    requires IsRenaming(v, r, k => k)
    ensures r == v
    decreases v
  {
    match v
    case Arr(xs) =>
      forall i | 0 <= i < |xs| ensures r.elems[i] == xs[i] {
        RenamingIdentity(xs[i], r.elems[i]);
      }
    case Obj(m) =>
      forall k | k in m ensures k in r.fields && r.fields[k] == m[k] {
        var k0 :| k0 in m && k0 == k && IsRenaming(m[k0], r.fields[k], k => k);
        RenamingIdentity(m[k], r.fields[k]);
      }
      RenamedKeys(m, r, k => k);
    case _ =>
  }

  /** A conversion that merges no two keys leaves no choice: the renaming is unique. */
  lemma {:induction false} RenamingUnique(v: Value, r1: Value, r2: Value, snake: string -> string)
    requires forall a, b :: snake(a) == snake(b) ==> a == b
    requires IsRenaming(v, r1, snake) && IsRenaming(v, r2, snake)
    ensures r1 == r2
    decreases v, 1
  {
    match v
    case Arr(xs) =>
      forall i | 0 <= i < |xs| ensures r1.elems[i] == r2.elems[i] {
        RenamingUnique(xs[i], r1.elems[i], r2.elems[i], snake);
      }
      assert r1.elems == r2.elems;
    case Obj(m) =>
      RenamedKeys(m, r1, snake);
      RenamedKeys(m, r2, snake);
      forall k' | k' in r1.fields ensures r1.fields[k'] == r2.fields[k'] {
        RenamedMemberUnique(m, r1, r2, snake, k');
      }
      assert r1.fields == r2.fields;
    case _ =>
  }

  /** Under such a conversion, the member a converted key holds comes from one member only. */
  lemma {:induction false} RenamedMemberUnique(m: map<string, Value>, r1: Value, r2: Value,
                                               snake: string -> string, k': string)
    requires forall a, b :: snake(a) == snake(b) ==> a == b
    requires IsRenaming(Obj(m), r1, snake) && IsRenaming(Obj(m), r2, snake)
    requires k' in r1.fields && k' in r2.fields
    ensures r1.fields[k'] == r2.fields[k']
    decreases Obj(m), 0
  {
    var a :| a in m && snake(a) == k' && IsRenaming(m[a], r1.fields[k'], snake);
    var b :| b in m && snake(b) == k' && IsRenaming(m[b], r2.fields[k'], snake);
    assert a == b;
    RenamingUnique(m[a], r1.fields[k'], r2.fields[k'], snake);
  }
}
