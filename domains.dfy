/**
 * The monitored domain set (healthbot.py:9). Python keeps it as a `set`;
 * the model keeps it as a sequence without duplicates, whose order stands
 * for the set's iteration order (the order `enumerate(domains)` and
 * `list(domains)` see).
 */
module DomainSet {
  import opened Wrappers

  predicate NoDuplicates(ds: seq<string>)
  {
    forall i, j :: 0 <= i < j < |ds| ==> ds[i] != ds[j]
  }

  /**
   * `domains.add(d)` (healthbot.py:104): the set gains `d` and nothing else.
   * Python decides where a new member falls in iteration order; the model
   * puts it last.
   */
  function Add(ds: seq<string>, d: string): (r: seq<string>)
    ensures forall x :: x in r <==> x in ds || x == d
    ensures d in ds ==> r == ds
    ensures NoDuplicates(ds) ==> NoDuplicates(r)
  {
    if d in ds then ds else ds + [d]
  }

  /**
   * Python's `xs[i]` on a list of length `len`: the position it reads, or
   * `None` where Python raises `IndexError`. Negative indices count from the end.
   */
  function ListIndex(len: nat, i: int): (r: Option<nat>)
    ensures r.Some? <==> -(len as int) <= i < len
    ensures r.Some? ==> r.value < len && r.value == i % len
  {
    if 0 <= i < len then Some(i)
    else if -(len as int) <= i < 0 then Some(i + len)
    else None
  }

  /** `domains.remove(ds[k])` on a set: exactly that member leaves, every other one stays. */
  function RemoveAt(ds: seq<string>, k: nat): (r: seq<string>)
    requires k < |ds|
    ensures |r| == |ds| - 1
    ensures NoDuplicates(ds) ==> NoDuplicates(r) && forall x :: x in r <==> x in ds && x != ds[k]
  {
    var r := ds[..k] + ds[k + 1..];
    assert forall i :: 0 <= i < |r| ==> r[i] == if i < k then ds[i] else ds[i + 1];
    r
  }
}
