/**
 * The order in which the renderer visits entities: `sorted` by length,
 * longest first, and then `sorted` again by offset.  Both sorts are stable,
 * so the result is ordered by offset ascending, then length descending, and
 * entities equal on both keep their order of arrival.
 */
module EntityOrder {
  import opened MessageEntity

  /** Entity `i` of `es` precedes entity `j` in the visiting order. */
  predicate Before(es: seq<Entity>, i: nat, j: nat)
    requires i < |es| && j < |es|
  {
    || es[i].offset < es[j].offset
    || (es[i].offset == es[j].offset && es[i].length > es[j].length)
    || (es[i].offset == es[j].offset && es[i].length == es[j].length && i < j)
  }

  /** `s` lists indices of `es` in strictly increasing visiting order. */
  predicate SortedOrder(es: seq<Entity>, s: seq<nat>) {
    && (forall k :: 0 <= k < |s| ==> s[k] < |es|)
    && (forall a, b :: 0 <= a < b < |s| ==> Before(es, s[a], s[b]))
  }

  function Insert(es: seq<Entity>, x: nat, s: seq<nat>): (r: seq<nat>)
    requires x < |es| && SortedOrder(es, s) && x !in s
    ensures SortedOrder(es, r) && |r| == |s| + 1
    ensures forall y :: y in r <==> y == x || y in s
  {
    if |s| == 0 then [x]
    else if Before(es, x, s[0]) then [x] + s
    else
      var rest := Insert(es, x, s[1..]);
      assert forall y :: y in s <==> y == s[0] || y in s[1..];
      assert forall k :: 0 <= k < |rest| ==> Before(es, s[0], rest[k]) by {
        forall k | 0 <= k < |rest| ensures Before(es, s[0], rest[k]) {
          assert rest[k] in rest;
          if rest[k] != x {
            var m :| 0 <= m < |s[1..]| && s[1..][m] == rest[k];
            assert s[1 + m] == rest[k];
          }
        }
      }
      [s[0]] + rest
  }

  /** The visiting order of entities `0 .. n-1`. */
  function SortOrderUpTo(es: seq<Entity>, n: nat): (r: seq<nat>)
    requires n <= |es|
    ensures SortedOrder(es, r) && |r| == n
    ensures forall y :: y in r <==> 0 <= y < n
  {
    if n == 0 then [] else Insert(es, n - 1, SortOrderUpTo(es, n - 1))
  }

  /** The visiting order of all entities, as a sequence of their indices. */
  function SortOrder(es: seq<Entity>): (r: seq<nat>)
    ensures SortedOrder(es, r) && |r| == |es|
    ensures forall y :: y in r <==> 0 <= y < |es|
  {
    SortOrderUpTo(es, |es|)
  }

  /** `sorted(sorted(es, key=length, reverse=True), key=offset)`. */
  function SortEntities(es: seq<Entity>): (r: seq<Entity>)
    ensures |r| == |es|
  {
    var order := SortOrder(es);
    seq(|es|, k requires 0 <= k < |es| => es[order[k]])
  }

  /**
   * The sort is a permutation of the entities: every position of the
   * result holds the entity from a distinct position of the input.
   */
  lemma SortIsPermutation(es: seq<Entity>)
    ensures var order := SortOrder(es);
            && |order| == |es|
            && (forall k :: 0 <= k < |es| ==> order[k] < |es| && SortEntities(es)[k] == es[order[k]])
            && (forall a, b :: 0 <= a < b < |es| ==> order[a] != order[b])
            && (forall i :: 0 <= i < |es| ==> i in order)
  {
    var order := SortOrder(es);
    forall a, b | 0 <= a < b < |es| ensures order[a] != order[b] {
      assert Before(es, order[a], order[b]);
    }
  }

  /**
   * The result is ordered by offset ascending, then length descending, and
   * the sort is stable: entities equal on both keys keep their input order.
   */
  lemma SortIsStableByOffsetThenLength(es: seq<Entity>, a: nat, b: nat)
    requires a < b < |es|
    ensures var r := SortEntities(es);
            && r[a].offset <= r[b].offset
            && (r[a].offset == r[b].offset ==> r[a].length >= r[b].length)
            && (r[a].offset == r[b].offset && r[a].length == r[b].length ==> SortOrder(es)[a] < SortOrder(es)[b])
  {
    var order := SortOrder(es);
    assert Before(es, order[a], order[b]);
  }

  /** Of two entities starting at the same offset, the longer one comes first. */
  lemma LongerFirst(es: seq<Entity>, a: nat, b: nat)
    requires a < |es| && b < |es|
    requires SortEntities(es)[a].offset == SortEntities(es)[b].offset
    requires SortEntities(es)[a].length > SortEntities(es)[b].length
    ensures a < b
  {
    if b < a {
      SortIsStableByOffsetThenLength(es, b, a);
    }
  }
}
