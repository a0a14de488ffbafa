/**
 * The post form of one Measurement Protocol hit: an ordered list of
 * name/value fields, as Unity's WWWForm accumulates them with AddField.
 * AddField appends, so a name may occur more than once.
 */
module Forms {

  datatype Field = Field(name: string, value: string)

  type Payload = seq<Field>

  /** How many fields of `p` carry the name `name`. */
  function CountNamed(p: Payload, name: string): (n: nat)
    ensures n <= |p|
    ensures n == 0 <==> forall i :: 0 <= i < |p| ==> p[i].name != name
  {
    if p == [] then 0
    else CountNamed(p[..|p| - 1], name) + (if p[|p| - 1].name == name then 1 else 0)
  }

  lemma {:induction false} CountNamedAppend(a: Payload, b: Payload, name: string)
    ensures CountNamed(a + b, name) == CountNamed(a, name) + CountNamed(b, name)
    decreases |b|
  {
    if b == [] {
      assert a + b == a;
    } else {
      var b' := b[..|b| - 1];
      assert (a + b)[..|a + b| - 1] == a + b';
      CountNamedAppend(a, b', name);
    }
  }
}
