/**
 * A Python dict from strings to strings as an insertion-ordered list of entries.
 * Assigning to a key that is already present replaces its value where it stands;
 * assigning to a new key appends it. Iteration follows the list.
 */
module PyDict {
  import opened Wrappers

  type Dict = seq<(string, string)>

  function Keys(d: Dict): (ks: seq<string>)
    ensures |ks| == |d| && forall i :: 0 <= i < |d| ==> ks[i] == d[i].0
  {
    seq(|d|, i requires 0 <= i < |d| => d[i].0)
  }

  /** The first position holding `k`. */
  function Find(d: Dict, k: string): (r: Option<nat>)
    ensures r.Some? ==> r.value < |d| && d[r.value].0 == k
    ensures r.Some? ==> forall j :: 0 <= j < r.value ==> d[j].0 != k
    ensures r.None? ==> forall j :: 0 <= j < |d| ==> d[j].0 != k
    decreases |d|
  {
    if d == [] then None
    else if d[0].0 == k then Some(0)
    else match Find(d[1..], k)
      case None => None
      case Some(i) => Some(i + 1)
  }

  /** Two dicts with the same keys in the same order find every key at the same place. */
  lemma FindSameKeys(d: Dict, e: Dict, k: string)
    requires Keys(d) == Keys(e)
    ensures Find(d, k) == Find(e, k)
  {
    assert forall i :: 0 <= i < |d| ==> d[i].0 == e[i].0;
  }

  lemma FindAt(d: Dict, k: string, i: nat)
    requires i < |d| && d[i].0 == k
    requires forall j :: 0 <= j < i ==> d[j].0 != k
    ensures Find(d, k) == Some(i)
  {
  }

  /** `k in d` */
  predicate Has(d: Dict, k: string) {
    Find(d, k).Some?
  }

  /** The value under `k`, if any. */
  function Get(d: Dict, k: string): Option<string> {
    match Find(d, k)
    case None => None
    case Some(i) => Some(d[i].1)
  }

  /** The value under `k`, or `default` when there is none. */
  function GetOr(d: Dict, k: string, default: string): string {
    match Get(d, k)
    case None => default
    case Some(v) => v
  }

  /** Sets `k` to `v`: in place when the key is present, appended otherwise. */
  function Put(d: Dict, k: string, v: string): (r: Dict)
    ensures Get(r, k) == Some(v)
    ensures forall k' :: k' != k ==> Get(r, k') == Get(d, k')
    ensures Keys(r) == if Has(d, k) then Keys(d) else Keys(d) + [k]
  {
    match Find(d, k)
    case Some(i) =>
      var r := d[i := (k, v)];
      assert Keys(r) == Keys(d);
      forall k' ensures Find(r, k') == Find(d, k') {
        FindSameKeys(r, d, k');
      }
      r
    case None =>
      var r := d + [(k, v)];
      FindAt(r, k, |d|);
      forall k' | k' != k ensures Find(r, k') == Find(d, k') {
        if Has(d, k') {
          FindAt(r, k', Find(d, k').value);
        } else {
          assert forall j :: 0 <= j < |r| ==> r[j].0 != k';
        }
      }
      r
  }

  /** Setting one key leaves every other key's value as it was. */
  lemma GetPutOther(d: Dict, k: string, v: string, k2: string)
    requires k2 != k
    ensures Get(Put(d, k, v), k2) == Get(d, k2)
  {
  }

  /** Reading another key with a default after setting one key gives what it gave before. */
  lemma GetOrPutOther(d: Dict, k: string, v: string, k2: string, default: string)
    requires k2 != k
    ensures GetOr(Put(d, k, v), k2, default) == GetOr(d, k2, default)
  {
  }
}
