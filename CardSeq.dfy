/** The sequence operations the store builds its transitions from:
    `Array.prototype.find`, `filter` by card id, and `splice(i, 0, x)`. */
module CardSeq {
  import opened KanbanTypes

  function Min(a: nat, b: nat): nat {
    if a < b then a else b
  }

  /** The ids of `cards`, in order. */
  function Ids(cards: seq<Card>): seq<string> {
    seq(|cards|, k requires 0 <= k < |cards| => cards[k].id)
  }

  /** No id occurs twice. */
  predicate NoDuplicates(ids: seq<string>) {
    forall x | x in ids :: multiset(ids)[x] == 1
  }

  /** Pairwise distinct entries are unique. */
  lemma {:induction false} DistinctNoDuplicates(ids: seq<string>)
    requires forall i, j :: 0 <= i < j < |ids| ==> ids[i] != ids[j]
    ensures NoDuplicates(ids)
  {
    if |ids| > 0 {
      var t := ids[1..];
      DistinctNoDuplicates(t);
      assert ids == [ids[0]] + t;
      assert ids[0] !in t by {
        forall j | 0 <= j < |t| ensures t[j] != ids[0] {
          assert t[j] == ids[j + 1];
        }
      }
      forall x | x in ids ensures multiset(ids)[x] == 1 {
        if x != ids[0] {
          assert x in t;
        }
      }
    }
  }

  lemma IdsConcat(a: seq<Card>, b: seq<Card>)
    ensures Ids(a + b) == Ids(a) + Ids(b)
  {
  }

  /** The ids of `columns`, in order. */
  function ColumnIds(columns: seq<Column>): seq<string> {
    seq(|columns|, i requires 0 <= i < |columns| => columns[i].id)
  }

  /** `find` by id, as the index of the first match: `cards.find` is
      `FirstIndexOf(Ids(cards), id)` and `columns.find` is
      `FirstIndexOf(ColumnIds(columns), id)`. */
  function FirstIndexOf(ids: seq<string>, id: string): (r: Option<nat>)
    ensures r.Some? ==> r.value < |ids| && ids[r.value] == id
                        && forall j :: 0 <= j < r.value ==> ids[j] != id
    ensures r.None? ==> forall j :: 0 <= j < |ids| ==> ids[j] != id
  {
    if |ids| == 0 then None
    else if ids[0] == id then Some(0)
    else match FirstIndexOf(ids[1..], id)
      case None => None
      case Some(k) => Some(k + 1)
  }

  /** When `columns.find` finds nothing, no column has the id. */
  lemma ColumnNotFound(columns: seq<Column>, id: string)
    requires FirstIndexOf(ColumnIds(columns), id).None?
    ensures forall i :: 0 <= i < |columns| ==> columns[i].id != id
  {
    forall i | 0 <= i < |columns| ensures columns[i].id != id {
      assert ColumnIds(columns)[i] == columns[i].id;
    }
  }

  /** `cards.filter(card => card.id !== id)`: exactly the cards of another id remain. */
  function FilterOut(cards: seq<Card>, id: string): (r: seq<Card>)
    ensures |r| <= |cards|
    ensures forall c :: c in r <==> c in cards && c.id != id
  {
    if |cards| == 0 then []
    else (if cards[0].id == id then [] else [cards[0]]) + FilterOut(cards[1..], id)
  }

  /** `s.splice(i, 0, x)` for `i >= 0`: `x` goes in at `i`, or at the end when
      `i` is past it, and taking it out again gives back `s`. */
  function Splice<T>(s: seq<T>, i: nat, x: T): (r: seq<T>)
    ensures |r| == |s| + 1
    ensures r[Min(i, |s|)] == x
    ensures r[..Min(i, |s|)] + r[Min(i, |s|) + 1..] == s
  {
    var j := Min(i, |s|);
    assert (s[..j] + [x] + s[j..])[j + 1..] == s[j..];
    s[..j] + [x] + s[j..]
  }

  lemma AppendAssoc<T>(x: seq<T>, y: seq<T>, z: seq<T>)
    ensures x + (y + z) == (x + y) + z
  {
  }

  lemma {:induction false} FilterOutConcat(a: seq<Card>, b: seq<Card>, id: string)
    ensures FilterOut(a + b, id) == FilterOut(a, id) + FilterOut(b, id)
  {
    if |a| > 0 {
      var head := if a[0].id == id then [] else [a[0]];
      assert (a + b)[0] == a[0] && (a + b)[1..] == a[1..] + b;
      assert FilterOut(a + b, id) == head + FilterOut(a[1..] + b, id);
      assert FilterOut(a, id) == head + FilterOut(a[1..], id);
      FilterOutConcat(a[1..], b, id);
      AppendAssoc(head, FilterOut(a[1..], id), FilterOut(b, id));
    } else {
      assert a + b == b;
    }
  }

  /** Filtering out an id that does not occur changes nothing. */
  lemma {:induction false} FilterOutAbsent(cards: seq<Card>, id: string)
    requires id !in Ids(cards)
    ensures FilterOut(cards, id) == cards
  {
    if |cards| > 0 {
      assert Ids(cards)[0] == cards[0].id;
      assert Ids(cards[1..]) == Ids(cards)[1..];
      FilterOutAbsent(cards[1..], id);
    }
  }

  /** Filtering removes every occurrence of the id and nothing else. */
  lemma {:induction false} FilterOutCount(cards: seq<Card>, id: string, x: string)
    ensures multiset(Ids(FilterOut(cards, id)))[x] == if x == id then 0 else multiset(Ids(cards))[x]
  {
    if |cards| > 0 {
      FilterOutCount(cards[1..], id, x);
      var head := if cards[0].id == id then [] else [cards[0]];
      var rest := FilterOut(cards[1..], id);
      assert FilterOut(cards, id) == head + rest;
      IdsConcat(head, rest);
      IdsCons(cards);
      assert Ids(head) == if cards[0].id == id then [] else [cards[0].id];
    }
  }

  lemma IdsCons(cards: seq<Card>)
    requires |cards| > 0
    ensures Ids(cards) == [cards[0].id] + Ids(cards[1..])
  {
  }

  /** With unique ids, filtering out the id of the card at `k` is removing
      position `k`: the other cards keep their relative order. */
  lemma FilterOutUniqueAt(cards: seq<Card>, k: nat)
    requires k < |cards| && NoDuplicates(Ids(cards))
    ensures FilterOut(cards, cards[k].id) == cards[..k] + cards[k + 1..]
  {
    OnlyOccurrence(cards, k);
    FilterOutOnlyAt(cards, k);
  }

  lemma FilterOutOnlyAt(cards: seq<Card>, k: nat)
    requires k < |cards|
    requires cards[k].id !in Ids(cards[..k]) && cards[k].id !in Ids(cards[k + 1..])
    ensures FilterOut(cards, cards[k].id) == cards[..k] + cards[k + 1..]
  {
    SplitAt(cards, k);
    FilterOutSplit(cards[..k], cards[k], cards[k + 1..]);
  }

  lemma SplitAt<T>(s: seq<T>, k: nat)
    requires k < |s|
    ensures s == s[..k] + [s[k]] + s[k + 1..]
  {
  }

  lemma FilterOutSplit(pre: seq<Card>, x: Card, post: seq<Card>)
    requires x.id !in Ids(pre) && x.id !in Ids(post)
    ensures FilterOut(pre + [x] + post, x.id) == pre + post
  {
    FilterOutAround(pre, x, post);
    FilterOutAbsent(pre, x.id);
    FilterOutAbsent(post, x.id);
  }

  lemma FilterOutAround(pre: seq<Card>, x: Card, post: seq<Card>)
    ensures FilterOut(pre + [x] + post, x.id) == FilterOut(pre, x.id) + FilterOut(post, x.id)
  {
    assert FilterOut([x], x.id) == [] by {
      assert [x][1..] == [];
    }
    FilterOutConcat(pre + [x], post, x.id);
    FilterOutConcat(pre, [x], x.id);
  }

  /** With unique ids, the id at `k` occurs neither before nor after `k`. */
  lemma OnlyOccurrence(cards: seq<Card>, k: nat)
    requires k < |cards| && NoDuplicates(Ids(cards))
    ensures cards[k].id !in Ids(cards[..k]) && cards[k].id !in Ids(cards[k + 1..])
  {
    var id := cards[k].id;
    var pre, post := cards[..k], cards[k + 1..];
    assert cards == pre + [cards[k]] + post;
    IdsConcat(pre + [cards[k]], post);
    IdsConcat(pre, [cards[k]]);
    assert multiset(Ids(cards)) == multiset(Ids(pre)) + multiset{id} + multiset(Ids(post));
    assert id in Ids(cards);
  }

  /** Removing a card from a sequence with unique ids keeps them unique. */
  lemma RemoveAtNoDuplicates(cards: seq<Card>, k: nat)
    requires k < |cards| && NoDuplicates(Ids(cards))
    ensures NoDuplicates(Ids(cards[..k] + cards[k + 1..]))
    ensures multiset(Ids(cards[..k] + cards[k + 1..])) + multiset{cards[k].id} == multiset(Ids(cards))
  {
    assert cards == cards[..k] + [cards[k]] + cards[k + 1..];
    IdsConcat(cards[..k] + [cards[k]], cards[k + 1..]);
    IdsConcat(cards[..k], [cards[k]]);
    IdsConcat(cards[..k], cards[k + 1..]);
    var rest := Ids(cards[..k] + cards[k + 1..]);
    assert multiset(Ids(cards)) == multiset(rest) + multiset{cards[k].id};
    forall x | x in rest ensures multiset(rest)[x] == 1 {
      assert x in multiset(Ids(cards));
    }
  }

  /** Splicing a card in adds exactly its id to the id multiset. */
  lemma SpliceIds(cards: seq<Card>, i: nat, x: Card)
    ensures multiset(Ids(Splice(cards, i, x))) == multiset(Ids(cards)) + multiset{x.id}
  {
    var j := Min(i, |cards|);
    assert Splice(cards, i, x) == cards[..j] + [x] + cards[j..];
    IdsConcat(cards[..j] + [x], cards[j..]);
    IdsConcat(cards[..j], [x]);
    assert cards == cards[..j] + cards[j..];
    IdsConcat(cards[..j], cards[j..]);
  }

  /** Splicing a card back in where it was taken out restores the sequence. */
  lemma SpliceRemoved<T>(s: seq<T>, k: nat)
    requires k < |s|
    ensures Splice(s[..k] + s[k + 1..], k, s[k]) == s
  {
    var t := s[..k] + s[k + 1..];
    assert t[..k] == s[..k];
    assert t[k..] == s[k + 1..];
  }

  /** An in-range splice: `x` at `i`, the old sequence around it, and the old
      element at `i` right after it. */
  lemma SpliceAt<T>(s: seq<T>, i: nat, x: T)
    requires i <= |s|
    ensures var r := Splice(s, i, x);
      r[i] == x && r[..i] + r[i + 1..] == s && (i < |s| ==> r[i + 1] == s[i])
  {
    assert Min(i, |s|) == i;
    var r := Splice(s, i, x);
    if i < |s| {
      assert (r[..i] + r[i + 1..])[i] == r[i + 1];
    }
  }

  /** Taking an element out of a sequence and putting it back at `idx`, the
      index the drop handler computes from the raw index `raw`: the element is
      at `idx`, the others keep their order, it comes right before the element
      that was at `raw`, and it is last when `raw` is the length. */
  lemma ReinsertBefore<T>(s: seq<T>, k: nat, raw: nat, idx: nat, moved: seq<T>)
    requires k < |s| && raw <= |s|
    requires idx == if k < raw then raw - 1 else raw
    requires moved == Splice(s[..k] + s[k + 1..], idx, s[k])
    ensures |moved| == |s| && idx < |s| && moved[idx] == s[k]
    ensures moved[..idx] + moved[idx + 1..] == s[..k] + s[k + 1..]
    ensures raw < |s| && raw != k ==> idx + 1 < |s| && moved[idx + 1] == s[raw]
    ensures raw == |s| ==> idx == |s| - 1
  {
    var rest := s[..k] + s[k + 1..];
    SpliceAt(rest, idx, s[k]);
    if raw < |s| && raw != k {
      if raw < k {
        assert rest[idx] == s[..k][idx];
      } else {
        assert rest[idx] == s[k + 1..][idx - k];
      }
    }
  }
}
