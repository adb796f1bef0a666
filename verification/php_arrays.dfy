/**
 * PHP's ordered, string-keyed arrays as the configuration hands them over:
 * a sequence of key/value entries in insertion order. A PHP array never holds
 * the same key twice; `KeysUnique` states that, and `Put` is keyed assignment
 * (`$a[$key] = $value`), which keeps it.
 */
module PhpArrays {
  import opened Basics

  datatype Entry = Entry(key: string, value: string)

  type PhpArray = seq<Entry>

  ghost predicate KeysUnique(a: PhpArray) {
    forall i, j | 0 <= i < j < |a| :: a[i].key != a[j].key
  }

  ghost predicate HasKey(a: PhpArray, key: string) {
    exists i | 0 <= i < |a| :: a[i].key == key
  }

  /** The set of keys of `a`. */
  ghost function KeySet(a: PhpArray): set<string> {
    set i | 0 <= i < |a| :: a[i].key
  }

  /** `array_values($a)`: the values, in insertion order. */
  function Values(a: PhpArray): (vs: seq<string>)
    ensures |vs| == |a|
    ensures forall i | 0 <= i < |a| :: vs[i] == a[i].value
  {
    if a == [] then [] else Values(a[..|a| - 1]) + [a[|a| - 1].value]
  }

  /** `key($a)` on a fresh array: the first key, or null when the array is empty. */
  function FirstKey(a: PhpArray): (k: Option<string>)
    ensures k.Some? <==> a != []
    ensures k.Some? ==> k.value == a[0].key
  {
    if a == [] then None else Some(a[0].key)
  }

  /** `$a[$key]`: the value stored under `key`, or null when there is none. */
  function Lookup(a: PhpArray, key: string): (v: Option<string>)
    ensures v.Some? <==> HasKey(a, key)
    ensures KeysUnique(a) ==> forall i | 0 <= i < |a| && a[i].key == key :: v == Some(a[i].value)
  {
    if a == [] then None
    else if a[0].key == key then Some(a[0].value)
    else
      var v := Lookup(a[1..], key);
      assert forall i | 1 <= i < |a| :: a[i] == a[1..][i - 1];
      v
  }

  /**
   * `$a[$key] = $value`: replaces the value in place when `key` is present,
   * and appends a new last entry otherwise.
   */
  function Put(a: PhpArray, key: string, value: string): (r: PhpArray)
    ensures |r| == |a| || |r| == |a| + 1
    ensures forall i | 0 <= i < |a| :: r[i].key == a[i].key
    ensures |r| == |a| + 1 ==> r[|a|] == Entry(key, value)
    ensures KeysUnique(a) ==> KeysUnique(r)
    ensures !HasKey(a, key) ==> r == a + [Entry(key, value)]
    ensures KeysUnique(a) ==> forall i | 0 <= i < |a| && a[i].key == key :: r == a[i := Entry(key, value)]
  {
    if a == [] then [Entry(key, value)]
    else if a[0].key == key then [Entry(key, value)] + a[1..]
    else
      var rest := Put(a[1..], key, value);
      assert forall i | 1 <= i < |a| :: a[i] == a[1..][i - 1];
      assert !HasKey(a, key) ==> !HasKey(a[1..], key);
      [a[0]] + rest
  }
}
