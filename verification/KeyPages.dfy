/** Bounded pages of keys, in storage-key order, after a cursor. */
module KeyPages {
  import opened Prelude

  type Key = nat

  /** The first `size` keys after a cursor. */
  ghost predicate PageAfter(keys: set<Key>, cursor: Option<Key>, size: nat, page: seq<Key>) {
    && |page| <= size
    && (forall i :: 0 <= i < |page| ==> page[i] in keys && (cursor.Some? ==> page[i] > cursor.value))
    && (forall i, j :: 0 <= i < j < |page| ==> page[i] < page[j])
    && (forall key :: key in keys && (cursor.Some? ==> key > cursor.value) && key !in page ==>
          |page| == size && forall p :: p in page ==> p < key)
  }

  method KeysAfter(keys: set<Key>, cursor: Option<Key>, size: nat) returns (page: seq<Key>)
    ensures PageAfter(keys, cursor, size, page)
  {
    page := [];
    var rest := set key | key in keys && (cursor.Some? ==> key > cursor.value);
    ghost var all := rest;
    while rest != {} && |page| < size
      invariant |page| <= size && rest <= all
      invariant forall i :: 0 <= i < |page| ==> page[i] in all
      invariant forall key :: key in all && key !in rest ==> key in page
      invariant forall i, j :: 0 <= i < j < |page| ==> page[i] < page[j]
      invariant forall i, key :: 0 <= i < |page| && key in rest ==> page[i] < key
    {
      var least := Least(rest);
      AlsoIn(page, least);
      page, rest := page + [least], rest - {least};
    }
  }

  lemma AlsoIn(page: seq<Key>, key: Key)
    ensures forall k :: k in page || k == key ==> k in page + [key]
  {
  }

  method Least(keys: set<Key>) returns (least: Key)
    requires keys != {}
    ensures least in keys && forall key :: key in keys ==> least <= key
  {
    least :| least in keys;
    var rest := keys - {least};
    while rest != {}
      invariant rest <= keys && least in keys
      invariant forall key :: key in keys && key !in rest ==> least <= key
    {
      var key :| key in rest;
      rest := rest - {key};
      least := if key < least then key else least;
    }
  }
}
